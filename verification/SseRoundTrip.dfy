/** Chunks framed as server-sent events, with heartbeats anywhere between them, read back in full. */
module SseRoundTrip {
  import opened Wrappers
  import opened SseFraming

  datatype Frame = Heartbeat | Chunk(bytes: seq<byte>)

  const PREFIX: seq<byte> := DATA + [COLON, SPACE]
  const BREAK: seq<byte> := [NEWLINE, NEWLINE]
  const END: seq<byte> := PREFIX + DONE + BREAK

  function FrameBytes(frame: Frame): seq<byte> {
    match frame
    case Heartbeat => ACTIVITY + BREAK
    case Chunk(bytes) => PREFIX + bytes + BREAK
  }

  function Framed(frames: seq<Frame>): seq<byte> {
    if frames == [] then [] else FrameBytes(frames[0]) + Framed(frames[1..])
  }

  function ChunkFrames(chunks: seq<seq<byte>>): seq<Frame> {
    seq(|chunks|, k requires 0 <= k < |chunks| => Chunk(chunks[k]))
  }

  lemma {:induction false} FramedAppend(frames: seq<Frame>, frame: Frame)
    ensures Framed(frames + [frame]) == Framed(frames) + FrameBytes(frame)
    decreases |frames|
  {
    hide FrameBytes;
    if frames == [] {
      assert ([] + [frame])[1..] == [];
      assert Framed([frame]) == FrameBytes(frame) + [];
    } else {
      assert (frames + [frame])[1..] == frames[1..] + [frame];
      FramedAppend(frames[1..], frame);
    }
  }

  /** Writes chunks one after the other, stopping at the first that is not valid, then the end marker. */
  method WriteMappedChunks(codec: Codec, chunks: seq<seq<byte>>, done: bool)
    returns (out: seq<byte>, written: nat)
    ensures written <= |chunks| && forall k | 0 <= k < written :: codec.valid(chunks[k])
    ensures written < |chunks| ==> !codec.valid(chunks[written])
    ensures out == Framed(ChunkFrames(chunks[..written])) + if written == |chunks| && done then END else []
  {
    hide FrameBytes;
    out, written := [], 0;
    while written < |chunks|
      invariant 0 <= written <= |chunks|
      invariant forall k | 0 <= k < written :: codec.valid(chunks[k])
      invariant out == Framed(ChunkFrames(chunks[..written]))
    {
      var chunk := chunks[written];
      if !codec.valid(chunk) {
        return;
      }
      ghost var before := out;
      out := out + PREFIX;
      out := out + chunk;
      out := out + BREAK;
      FrameIs(before, chunk);
      assert ChunkFrames(chunks[..written + 1]) == ChunkFrames(chunks[..written]) + [Chunk(chunk)];
      FramedAppend(ChunkFrames(chunks[..written]), Chunk(chunk));
      written := written + 1;
    }
    if done {
      out := out + END;
    }
  }

  lemma FrameIs(before: seq<byte>, chunk: seq<byte>)
    ensures before + PREFIX + chunk + BREAK == before + FrameBytes(Chunk(chunk))
  {
  }

  // ---------------------------------------------------------------- reading it all

  datatype Ending = AtDone | AtEnd | AtTooLarge | AtInvalid

  datatype Reading = Reading(chunks: seq<seq<byte>>, ending: Ending)

  /** What repeated calls of Next deliver. */
  function ReadAll(codec: Codec, input: seq<byte>): Reading
    decreases |input|
  {
    match NextEvent(codec, input, [])
    case Event(Data(chunk), rest) =>
      var more := ReadAll(codec, rest);
      Reading([chunk] + more.chunks, more.ending)
    case Event(Finished, _) => Reading([], AtDone)
    case EndOfStream => Reading([], AtEnd)
    case TooLarge => Reading([], AtTooLarge)
    case Invalid => Reading([], AtInvalid)
  }

  /** The caller's loop: takes events until the stream ends one way or another. */
  method Drain(stream: EventStream) returns (reading: Reading)
    requires !stream.finished
    modifies stream
    ensures reading == ReadAll(stream.codec, old(stream.input))
  {
    var chunks: seq<seq<byte>> := [];
    while true
      invariant !stream.finished
      invariant var rest := ReadAll(stream.codec, stream.input);
                Reading(chunks + rest.chunks, rest.ending) == ReadAll(stream.codec, old(stream.input))
      decreases |stream.input|
    {
      ghost var rest := ReadAll(stream.codec, stream.input);
      var outcome := stream.Next();
      match outcome
      case Event(Data(chunk), _) =>
        assert chunks + rest.chunks == chunks + [chunk] + ReadAll(stream.codec, stream.input).chunks;
        chunks := chunks + [chunk];
      case Event(Finished, _) => assert chunks + [] == chunks; return Reading(chunks, AtDone);
      case EndOfStream => assert chunks + [] == chunks; return Reading(chunks, AtEnd);
      case TooLarge => assert chunks + [] == chunks; return Reading(chunks, AtTooLarge);
      case Invalid => assert chunks + [] == chunks; return Reading(chunks, AtInvalid);
    }
  }

  // ---------------------------------------------------------------- one frame

  /** A chunk as adapters produce it: valid, trimmed and on one line. */
  predicate Readable(codec: Codec, chunk: seq<byte>) {
    && codec.valid(chunk)
    && codec.trim(chunk) == chunk
    && NEWLINE !in chunk
    && (chunk != [] ==> chunk[|chunk| - 1] != RETURN)
  }

  predicate Fits(chunk: seq<byte>) {
    |PREFIX| + |chunk| <= MAX_LINE
  }

  lemma LineLengthIs(text: seq<byte>, rest: seq<byte>)
    requires NEWLINE !in text
    ensures LineLength(text + [NEWLINE] + rest) == |text| + 1
  {
    var input := text + [NEWLINE] + rest;
    assert input[|text|] == NEWLINE;
    assert forall k | 0 <= k < |text| :: input[k] == text[k];
    assert FirstNewline(input) == |text|;
  }

  lemma TakeLineIs(text: seq<byte>, rest: seq<byte>)
    requires NEWLINE !in text
    requires text != [] ==> text[|text| - 1] != RETURN
    ensures TakeLine(text + [NEWLINE] + rest) == if |text| > MAX_LINE then LineTooLong else Line(text, rest)
  {
    LineLengthIs(text, rest);
    var input := text + [NEWLINE] + rest;
    var n := |text| + 1;
    assert input[..n] == text + [NEWLINE] && input[n..] == rest;
    var line := text + [NEWLINE];
    assert line[..|line| - 1] == text;
  }

  lemma BlankLine(rest: seq<byte>)
    ensures TakeLine([NEWLINE] + rest) == Line([], rest)
  {
    TakeLineIs([], rest);
    assert [] + [NEWLINE] + rest == [NEWLINE] + rest;
  }

  lemma HeartbeatIsSkipped(codec: Codec, rest: seq<byte>)
    ensures NextEvent(codec, FrameBytes(Heartbeat) + rest, []) == NextEvent(codec, rest, [])
  {
    var tail := [NEWLINE] + rest;
    assert FrameBytes(Heartbeat) + rest == ACTIVITY + [NEWLINE] + tail;
    TakeLineIs(ACTIVITY, tail);
    BlankLine(rest);
    hide TakeLine, FrameBytes;
    assert ACTIVITY[0] == COLON;
  }

  lemma DataField(chunk: seq<byte>)
    ensures SplitField(PREFIX + chunk) == Field(DATA, chunk)
  {
    var line := PREFIX + chunk;
    assert line[4] == COLON && line[5] == SPACE;
    assert forall k | 0 <= k < 4 :: line[k] == DATA[k] != COLON;
    assert FirstColon(line) == 4;
    assert line[..4] == DATA;
    assert line[5..][1..] == chunk;
  }

  /** A data frame yields its decoded text, or is refused for its length. */
  lemma FrameIsRead(codec: Codec, chunk: seq<byte>, rest: seq<byte>)
    requires NEWLINE !in chunk && chunk != [] && chunk[|chunk| - 1] != RETURN
    ensures NextEvent(codec, PREFIX + chunk + BREAK + rest, []) ==
            if Fits(chunk) then DecodeEvent(codec, chunk, rest) else TooLarge
  {
    var line, tail := PREFIX + chunk, [NEWLINE] + rest;
    assert PREFIX + chunk + BREAK + rest == line + [NEWLINE] + tail;
    assert NEWLINE !in line by {
      assert forall k | 0 <= k < |PREFIX| :: PREFIX[k] != NEWLINE;
      assert forall k | 0 <= k < |line| :: line[k] == if k < |PREFIX| then PREFIX[k] else chunk[k - |PREFIX|];
    }
    TakeLineIs(line, tail);
    DataField(chunk);
    BlankLine(rest);
    assert line[0] != COLON;
    hide TakeLine, SplitField;
    if Fits(chunk) {
      assert Joined([], chunk) == chunk;
      assert NextEvent(codec, tail, chunk) == DecodeEvent(codec, chunk, rest);
    }
  }

  lemma ChunkIsRead(codec: Codec, chunk: seq<byte>, rest: seq<byte>)
    requires codec.Sane() && Readable(codec, chunk)
    ensures NextEvent(codec, FrameBytes(Chunk(chunk)) + rest, []) ==
            if Fits(chunk) then Event(Data(chunk), rest) else TooLarge
  {
    hide NextEvent, Fits;
    assert chunk != [];
    FrameIsRead(codec, chunk, rest);
  }

  lemma EndIsRead(codec: Codec, rest: seq<byte>)
    requires codec.Sane()
    ensures NextEvent(codec, END + rest, []) == Event(Finished, rest)
  {
    hide NextEvent;
    FrameIsRead(codec, DONE, rest);
  }

  // ---------------------------------------------------------------- whole streams

  /** The chunks in front of the first one that is too long. */
  function Deliverable(frames: seq<Frame>): seq<seq<byte>> {
    if frames == [] then []
    else
      match frames[0]
      case Heartbeat => Deliverable(frames[1..])
      case Chunk(bytes) => if Fits(bytes) then [bytes] + Deliverable(frames[1..]) else []
  }

  predicate AllFit(frames: seq<Frame>) {
    forall k | 0 <= k < |frames| :: frames[k].Chunk? ==> Fits(frames[k].bytes)
  }

  predicate AllReadable(codec: Codec, frames: seq<Frame>) {
    forall k | 0 <= k < |frames| :: frames[k].Chunk? ==> Readable(codec, frames[k].bytes)
  }

  /**
   For any chunks and any heartbeats between them, followed by anything that ends the reading:
   the chunks come back in order, up to the first one that does not fit on a line.
   */
  lemma {:induction false} FramesAreRead(codec: Codec, frames: seq<Frame>, rest: seq<byte>)
    requires codec.Sane() && AllReadable(codec, frames)
    requires ReadAll(codec, rest).chunks == []
    ensures ReadAll(codec, Framed(frames) + rest) ==
            Reading(Deliverable(frames), if AllFit(frames) then ReadAll(codec, rest).ending else AtTooLarge)
    decreases |frames|
  {
    hide FrameBytes, NextEvent, ReadAll, Fits, Readable, AllReadable;
    if frames == [] {
      assert Framed(frames) + rest == rest;
    } else {
      hide Framed, AllFit;
      var tail := Framed(frames[1..]) + rest;
      FirstFramed(frames, rest);
      FirstAndRest(codec, frames);
      FramesAreRead(codec, frames[1..], rest);
      match frames[0]
      case Heartbeat =>
        HeartbeatIsSkipped(codec, tail);
        SameEventSameReading(codec, FrameBytes(frames[0]) + tail, tail);
      case Chunk(bytes) =>
        ChunkThenRest(codec, bytes, tail);
    }
  }

  lemma FirstFramed(frames: seq<Frame>, rest: seq<byte>)
    requires frames != []
    ensures Framed(frames) + rest == FrameBytes(frames[0]) + (Framed(frames[1..]) + rest)
  {
    hide FrameBytes;
  }

  lemma FirstAndRest(codec: Codec, frames: seq<Frame>)
    requires frames != []
    ensures AllFit(frames) <==> (frames[0].Chunk? ==> Fits(frames[0].bytes)) && AllFit(frames[1..])
    ensures AllReadable(codec, frames) <==>
            (frames[0].Chunk? ==> Readable(codec, frames[0].bytes)) && AllReadable(codec, frames[1..])
  {
    hide Readable, Fits;
    assert forall k | 1 <= k < |frames| :: frames[k] == frames[1..][k - 1];
  }

  lemma ChunkThenRest(codec: Codec, chunk: seq<byte>, rest: seq<byte>)
    requires codec.Sane() && Readable(codec, chunk)
    ensures ReadAll(codec, FrameBytes(Chunk(chunk)) + rest) ==
            if Fits(chunk) then Reading([chunk] + ReadAll(codec, rest).chunks, ReadAll(codec, rest).ending)
            else Reading([], AtTooLarge)
  {
    hide NextEvent, FrameBytes, Fits, Readable;
    ChunkIsRead(codec, chunk, rest);
  }

  lemma SameEventSameReading(codec: Codec, one: seq<byte>, two: seq<byte>)
    requires NextEvent(codec, one, []) == NextEvent(codec, two, [])
    ensures ReadAll(codec, one) == ReadAll(codec, two)
  {
    hide NextEvent;
  }

  /** The chunks of a stream, without the heartbeats. */
  function Chunks(frames: seq<Frame>): seq<seq<byte>> {
    if frames == [] then []
    else (if frames[0].Chunk? then [frames[0].bytes] else []) + Chunks(frames[1..])
  }

  /** The position of the first chunk that does not fit on a line; the length when all fit. */
  function FirstLong(chunks: seq<seq<byte>>): (n: nat)
    ensures n <= |chunks|
    ensures n < |chunks| ==> !Fits(chunks[n])
    ensures forall k | 0 <= k < n :: Fits(chunks[k])
  {
    if chunks == [] || !Fits(chunks[0]) then 0 else 1 + FirstLong(chunks[1..])
  }

  lemma FirstLongOf(bytes: seq<byte>, rest: seq<seq<byte>>)
    ensures FirstLong([bytes] + rest) == if Fits(bytes) then 1 + FirstLong(rest) else 0
  {
    hide Fits;
    assert ([bytes] + rest)[1..] == rest;
  }

  /** What is delivered is the chunks in front of the first long one: all of them exactly when all frames fit. */
  lemma {:induction false} DeliverableIsPrefix(codec: Codec, frames: seq<Frame>)
    ensures var chunks := Chunks(frames);
            && Deliverable(frames) == chunks[..FirstLong(chunks)]
            && (AllFit(frames) <==> FirstLong(chunks) == |chunks|)
    decreases |frames|
  {
    hide Fits, FirstLong;
    if frames != [] {
      hide AllFit;
      var rest := Chunks(frames[1..]);
      DeliverableIsPrefix(codec, frames[1..]);
      FirstAndRest(codec, frames);
      if frames[0].Chunk? {
        FirstLongOf(frames[0].bytes, rest);
      } else {
        assert [] + rest == rest;
      }
    }
  }

  /**
   Chunks with heartbeats anywhere between them, then the end marker: exactly the chunks in order
   and the end; or, when one does not fit on a line, those in front of it and a refusal.
   */
  lemma RoundTrip(codec: Codec, frames: seq<Frame>, rest: seq<byte>)
    requires codec.Sane() && AllReadable(codec, frames)
    ensures var chunks := Chunks(frames);
            var n := FirstLong(chunks);
            ReadAll(codec, Framed(frames) + (END + rest)) ==
            Reading(chunks[..n], if n == |chunks| then AtDone else AtTooLarge)
    ensures AllFit(frames) ==> ReadAll(codec, Framed(frames) + (END + rest)) == Reading(Chunks(frames), AtDone)
  {
    EndIsRead(codec, rest);
    hide NextEvent, Framed, Deliverable, AllFit, AllReadable, Chunks, FirstLong;
    FramesAreRead(codec, frames, END + rest);
    DeliverableIsPrefix(codec, frames);
    assert Chunks(frames)[..|Chunks(frames)|] == Chunks(frames);
  }

  /** A stream cut off between frames: the same chunks, then the bare end of input. */
  lemma CutOffStream(codec: Codec, frames: seq<Frame>)
    requires codec.Sane() && AllReadable(codec, frames)
    ensures var chunks := Chunks(frames);
            var n := FirstLong(chunks);
            ReadAll(codec, Framed(frames)) == Reading(chunks[..n], if n == |chunks| then AtEnd else AtTooLarge)
    ensures AllFit(frames) ==> ReadAll(codec, Framed(frames)) == Reading(Chunks(frames), AtEnd)
  {
    assert ReadAll(codec, []) == Reading([], AtEnd);
    assert Framed(frames) + [] == Framed(frames);
    hide NextEvent, Framed, Deliverable, AllFit, AllReadable, Chunks, FirstLong;
    FramesAreRead(codec, frames, []);
    DeliverableIsPrefix(codec, frames);
    assert Chunks(frames)[..|Chunks(frames)|] == Chunks(frames);
  }
}
