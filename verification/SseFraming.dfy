/**
 Framing of chat chunks as server-sent events (internal/provider/native_stream.go) and the
 reader that takes them apart again (internal/provider/stream.go), byte by byte.
 */
module SseFraming {
  import opened Wrappers

  newtype byte = x: int | 0 <= x < 256

  const NEWLINE: byte := 10
  const RETURN: byte := 13
  const SPACE: byte := 32
  const COLON: byte := 58

  /** The field name "data". */
  const DATA: seq<byte> := [100, 97, 116, 97]

  /** The end marker "[DONE]". */
  const DONE: seq<byte> := [91, 68, 79, 78, 69, 93]

  /** The comment ": upstream-activity". */
  const ACTIVITY: seq<byte> :=
    [58, 32, 117, 112, 115, 116, 114, 101, 97, 109, 45, 97, 99, 116, 105, 118, 105, 116, 121]

  const BUFFER: nat := 0x1_0000
  const MAX_LINE: nat := 0x10_0000
  const MAX_EVENT: nat := 0x20_0000

  /** What the framing leaves to libraries: trimming white space and validating a chunk. */
  datatype Codec = Codec(trim: seq<byte> -> seq<byte>, valid: seq<byte> -> bool) {
    /** The end marker is neither padded nor a chunk, and the empty text is not one either. */
    predicate Sane() {
      trim(DONE) == DONE && !valid(DONE) && !valid([])
    }
  }

  // ---------------------------------------------------------------- lines

  /** The position of the first newline, or the length when there is none. */
  function FirstNewline(input: seq<byte>): (n: nat)
    ensures n <= |input|
    ensures n < |input| ==> input[n] == NEWLINE
    ensures forall k | 0 <= k < n :: input[k] != NEWLINE
  {
    if input == [] || input[0] == NEWLINE then 0 else 1 + FirstNewline(input[1..])
  }

  function WithoutSuffix(line: seq<byte>, last: byte): seq<byte> {
    if line != [] && line[|line| - 1] == last then line[..|line| - 1] else line
  }

  function TrimLineEnding(line: seq<byte>): seq<byte> {
    WithoutSuffix(WithoutSuffix(line, NEWLINE), RETURN)
  }

  datatype LineRead = Line(text: seq<byte>, rest: seq<byte>) | NoMoreLines | LineTooLong

  /** The bytes of the next line, its newline included. */
  function LineLength(input: seq<byte>): (n: nat)
    ensures n <= |input|
  {
    var n := FirstNewline(input);
    if n < |input| then n + 1 else n
  }

  function TakeLine(input: seq<byte>): (read: LineRead)
    ensures read.Line? ==> |read.rest| < |input|
  {
    var n := LineLength(input);
    if n > MAX_LINE + 1 then LineTooLong
    else if n == 0 then NoMoreLines
    else Line(TrimLineEnding(input[..n]), input[n..])
  }

  // ---------------------------------------------------------------- events

  function FirstColon(line: seq<byte>): (n: nat)
    ensures n <= |line|
    ensures n < |line| ==> line[n] == COLON
    ensures forall k | 0 <= k < n :: line[k] != COLON
  {
    if line == [] || line[0] == COLON then 0 else 1 + FirstColon(line[1..])
  }

  datatype Field = Field(name: seq<byte>, value: seq<byte>)

  function SplitField(line: seq<byte>): Field {
    var n := FirstColon(line);
    if n == |line| then Field(line, [])
    else
      var value := line[n + 1..];
      Field(line[..n], if value != [] && value[0] == SPACE then value[1..] else value)
  }

  datatype Event = Data(chunk: seq<byte>) | Finished

  datatype Outcome = Event(event: Event, rest: seq<byte>) | EndOfStream | TooLarge | Invalid

  function DecodeEvent(codec: Codec, data: seq<byte>, rest: seq<byte>): Outcome {
    var text := codec.trim(data);
    if text == DONE then Event(Finished, rest)
    else if !codec.valid(text) then Invalid
    else Event(Data(text), rest)
  }

  function Joined(data: seq<byte>, value: seq<byte>): seq<byte> {
    (if data == [] then data else data + [NEWLINE]) + value
  }

  /** The next event, when `data` has been collected for it already. */
  function NextEvent(codec: Codec, input: seq<byte>, data: seq<byte>): (outcome: Outcome)
    ensures outcome.Event? ==> |outcome.rest| < |input| || (input == [] && data != [] && outcome.rest == [])
    decreases |input|
  {
    match TakeLine(input)
    case LineTooLong => TooLarge
    case NoMoreLines => if data != [] then DecodeEvent(codec, data, []) else EndOfStream
    case Line(line, rest) =>
      if line == [] then (if data == [] then NextEvent(codec, rest, data) else DecodeEvent(codec, data, rest))
      else if line[0] == COLON then NextEvent(codec, rest, data)
      else if SplitField(line).name != DATA then NextEvent(codec, rest, data)
      else if |Joined(data, SplitField(line).value)| > MAX_EVENT then TooLarge
      else NextEvent(codec, rest, Joined(data, SplitField(line).value))
  }

  datatype SliceStatus = Complete | BufferFull | EndOfInput

  /** The reader object; `input` is what the upstream has still to deliver. */
  class EventStream {
    const codec: Codec
    var input: seq<byte>
    var finished: bool

    constructor (codec: Codec, input: seq<byte>)
      ensures this.codec == codec && this.input == input && !finished
    {
      this.codec, this.input, finished := codec, input, false;
    }

    /** The buffered reader: a line, a full buffer without a newline, or the last bytes. */
    method ReadSlice() returns (fragment: seq<byte>, status: SliceStatus)
      modifies this`input
      ensures old(input) == fragment + input
      ensures |fragment| <= BUFFER
      ensures match status
              case Complete => FirstNewline(old(input)) == |fragment| - 1
              case BufferFull => |fragment| == BUFFER && FirstNewline(old(input)) >= BUFFER
              case EndOfInput => input == [] && FirstNewline(old(input)) == |fragment|
    {
      var n := 0;
      while n < |input| && n < BUFFER && input[n] != NEWLINE
        invariant 0 <= n <= |input| && n <= BUFFER
        invariant forall k | 0 <= k < n :: input[k] != NEWLINE
      {
        n := n + 1;
      }
      if n < |input| && n < BUFFER {
        fragment, input, status := input[..n + 1], input[n + 1..], Complete;
      } else if n == BUFFER {
        fragment, input, status := input[..n], input[n..], BufferFull;
      } else {
        fragment, input, status := input, [], EndOfInput;
      }
    }

    /** Puts the fragments of a line together and gives up as soon as they exceed the limit. */
    method ReadStreamLine() returns (read: LineRead)
      modifies this`input
      ensures read == TakeLine(old(input))
      ensures read.Line? ==> input == read.rest
      ensures read.NoMoreLines? ==> input == []
    {
      var line: seq<byte> := [];
      while true
        invariant old(input) == line + input
        invariant |line| <= MAX_LINE + 1
        invariant FirstNewline(old(input)) >= |line|
        decreases |input|
      {
        ghost var before := input;
        var fragment, status := ReadSlice();
        NewlineFurtherOn(line, before);
        if |line| + |fragment| > MAX_LINE + 1 {
          return LineTooLong;
        }
        ghost var start := line;
        line := line + fragment;
        assert start + (fragment + input) == line + input;
        if status == Complete {
          assert old(input)[..|line|] == line && old(input)[|line|..] == input;
          return Line(TrimLineEnding(line), input);
        }
        if status == EndOfInput {
          assert line == old(input);
          if line != [] {
            assert old(input)[..|line|] == line && old(input)[|line|..] == [];
            return Line(TrimLineEnding(line), []);
          }
          return NoMoreLines;
        }
      }
    }

    method Next() returns (outcome: Outcome)
      modifies this`input, this`finished
      ensures old(finished) ==> outcome == EndOfStream && input == old(input) && finished
      ensures !old(finished) ==>
                && outcome == NextEvent(codec, old(input), [])
                && (outcome.Event? ==> input == outcome.rest)
                && finished == (outcome.Event? && outcome.event == Finished)
    {
      if finished {
        return EndOfStream;
      }
      var data: seq<byte> := [];
      while true
        invariant !finished
        invariant NextEvent(codec, old(input), []) == NextEvent(codec, input, data)
        decreases |input|
      {
        var read := ReadStreamLine();
        if read.LineTooLong? {
          return TooLarge;
        }
        if read.NoMoreLines? {
          if data != [] {
            outcome := DecodeCollected(data);
            return;
          }
          return EndOfStream;
        }
        var line := read.text;
        if line == [] {
          if data == [] {
            continue;
          }
          outcome := DecodeCollected(data);
          return;
        }
        if line[0] == COLON {
          continue;
        }
        var field := SplitField(line);
        if field.name != DATA {
          continue;
        }
        var additional := |field.value|;
        if data != [] {
          additional := additional + 1;
        }
        if |data| + additional > MAX_EVENT {
          return TooLarge;
        }
        if data != [] {
          data := data + [NEWLINE];
        }
        data := data + field.value;
      }
    }

    method DecodeCollected(data: seq<byte>) returns (outcome: Outcome)
      requires !finished
      modifies this`finished
      ensures outcome == DecodeEvent(codec, data, input)
      ensures finished == (outcome.Event? && outcome.event == Finished)
    {
      var text := codec.trim(data);
      if text == DONE {
        finished := true;
        return Event(Finished, input);
      }
      if !codec.valid(text) {
        return Invalid;
      }
      outcome := Event(Data(text), input);
    }
  }

  lemma NewlineFurtherOn(line: seq<byte>, rest: seq<byte>)
    requires FirstNewline(line + rest) >= |line|
    ensures FirstNewline(line + rest) == |line| + FirstNewline(rest)
  {
    var n, m := FirstNewline(line + rest), FirstNewline(rest);
    assert m < |rest| ==> (line + rest)[|line| + m] == NEWLINE;
    assert n < |line + rest| ==> rest[n - |line|] == NEWLINE;
  }
}
