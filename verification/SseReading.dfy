/**
 What the event reader makes of everything the gateway's own writer does not send: lines ended by
 a carriage return and newline, events of several data lines, other fields, and a last line without an end.
 */
module SseReading {
  import opened SseFraming
  import opened SseRoundTrip

  function Ascii(text: string): seq<byte>
    requires forall k | 0 <= k < |text| :: text[k] as int < 128
  {
    seq(|text|, k requires 0 <= k < |text| => text[k] as int as byte)
  }

  /** The constants, spelled out. */
  lemma Spelled()
    ensures DATA == Ascii("data") && DONE == Ascii("[DONE]") && ACTIVITY == Ascii(": upstream-activity")
    ensures [COLON, SPACE] == Ascii(": ") && PREFIX == Ascii("data: ")
    ensures MAX_LINE == 1024 * 1024 && MAX_EVENT == 2 * 1024 * 1024 && BUFFER == 64 * 1024
  {
  }

  /** A line's text: no newline in it, and no carriage return at its end. */
  predicate IsText(text: seq<byte>) {
    NEWLINE !in text && (text != [] ==> text[|text| - 1] != RETURN)
  }

  function Ending(crlf: bool): seq<byte> {
    if crlf then [RETURN, NEWLINE] else [NEWLINE]
  }

  /** A line with either ending is read as its text, and refused exactly when it is over the limit. */
  lemma EitherEndingIsRead(text: seq<byte>, crlf: bool, rest: seq<byte>)
    requires IsText(text)
    ensures TakeLine(text + Ending(crlf) + rest) ==
            if |text| + |Ending(crlf)| > MAX_LINE + 1 then LineTooLong else Line(text, rest)
  {
    if crlf {
      var line := text + [RETURN];
      assert text + Ending(true) + rest == line + [NEWLINE] + rest;
      assert NEWLINE !in line by {
        assert forall k | 0 <= k < |line| :: line[k] == if k < |text| then text[k] else RETURN;
      }
      LineLengthIs(line, rest);
      var input := line + [NEWLINE] + rest;
      var n := |line| + 1;
      assert input[..n] == line + [NEWLINE] && input[n..] == rest;
      assert (line + [NEWLINE])[..n - 1] == line && line[..|text|] == text;
    } else {
      TakeLineIs(text, rest);
    }
  }

  /** The last line of the input may go without an end, and may then be one byte longer. */
  lemma LastLineIsRead(text: seq<byte>)
    requires IsText(text) && text != []
    ensures TakeLine(text) == if |text| > MAX_LINE + 1 then LineTooLong else Line(text, [])
  {
    assert FirstNewline(text) == |text|;
    assert text[..|text|] == text && text[|text|..] == [];
  }

  // ---------------------------------------------------------------- fields

  /** A field is what stands before the first colon; one space after it does not belong to the value. */
  lemma FieldIsSplit(name: seq<byte>, value: seq<byte>)
    requires COLON !in name
    ensures SplitField(name) == Field(name, [])
    ensures SplitField(name + [COLON, SPACE] + value) == Field(name, value)
    ensures value == [] || value[0] != SPACE ==> SplitField(name + [COLON] + value) == Field(name, value)
  {
    assert FirstColon(name) == |name|;
    var spaced, plain := name + [COLON, SPACE] + value, name + [COLON] + value;
    ColonIs(name, [SPACE] + value, spaced);
    ColonIs(name, value, plain);
    assert spaced[|name| + 1..] == [SPACE] + value && ([SPACE] + value)[1..] == value;
    assert plain[|name| + 1..] == value;
  }

  lemma ColonIs(name: seq<byte>, value: seq<byte>, line: seq<byte>)
    requires COLON !in name && line == name + [COLON] + value
    ensures FirstColon(line) == |name| && line[..|name|] == name
  {
    assert line[|name|] == COLON;
    assert forall k | 0 <= k < |name| :: line[k] == name[k];
  }

  /** Comments and fields other than data leave no trace. */
  lemma OtherLinesAreSkipped(codec: Codec, text: seq<byte>, crlf: bool, rest: seq<byte>, data: seq<byte>)
    requires IsText(text) && text != [] && |text| + |Ending(crlf)| <= MAX_LINE + 1
    requires text[0] == COLON || SplitField(text).name != DATA
    ensures NextEvent(codec, text + Ending(crlf) + rest, data) == NextEvent(codec, rest, data)
  {
    EitherEndingIsRead(text, crlf, rest);
    hide TakeLine, SplitField;
  }

  // ---------------------------------------------------------------- events of several lines

  datatype DataLine = DataLine(value: seq<byte>, crlf: bool)

  predicate Fitting(line: DataLine) {
    IsText(line.value) && |PREFIX| + |line.value| + |Ending(line.crlf)| <= MAX_LINE + 1
  }

  function Lines(lines: seq<DataLine>): seq<byte> {
    if lines == [] then []
    else PREFIX + lines[0].value + Ending(lines[0].crlf) + Lines(lines[1..])
  }

  /** The values joined by newlines. */
  function JoinLines(lines: seq<DataLine>): seq<byte> {
    if lines == [] then []
    else if |lines| == 1 then lines[0].value
    else lines[0].value + [NEWLINE] + JoinLines(lines[1..])
  }

  /** Empty values in front of everything else are forgotten. */
  function Trimmed(lines: seq<DataLine>): seq<DataLine> {
    if lines != [] && lines[0].value == [] then Trimmed(lines[1..]) else lines
  }

  /** What the reader has collected after these lines. */
  function Collected(data: seq<byte>, lines: seq<DataLine>): seq<byte>
    decreases |lines|
  {
    if lines == [] then data else Collected(Joined(data, lines[0].value), lines[1..])
  }

  lemma {:induction false} CollectedAfter(data: seq<byte>, crlf: bool, lines: seq<DataLine>)
    requires data != []
    ensures Collected(data, lines) == JoinLines([DataLine(data, crlf)] + lines)
    ensures |data| <= |Collected(data, lines)|
    decreases |lines|
  {
    var all := [DataLine(data, crlf)] + lines;
    if lines != [] {
      var next := Joined(data, lines[0].value);
      CollectedAfter(next, crlf, lines[1..]);
      var rest := [DataLine(next, crlf)] + lines[1..];
      assert all[1..] == lines && rest[1..] == lines[1..];
      if |lines| > 1 {
        assert JoinLines(rest) == next + [NEWLINE] + JoinLines(lines[1..]);
        assert JoinLines(all) == data + [NEWLINE] + (lines[0].value + [NEWLINE] + JoinLines(lines[1..]));
      }
    }
  }

  lemma {:induction false} CollectedIs(lines: seq<DataLine>)
    ensures Collected([], lines) == JoinLines(Trimmed(lines))
    decreases |lines|
  {
    if lines != [] {
      var value := lines[0].value;
      assert Joined([], value) == value;
      if value == [] {
        CollectedIs(lines[1..]);
      } else {
        CollectedAfter(value, lines[0].crlf, lines[1..]);
        assert [DataLine(value, lines[0].crlf)] + lines[1..] == lines;
      }
    }
  }

  lemma CollectedGrows(data: seq<byte>, lines: seq<DataLine>)
    ensures |data| <= |Collected(data, lines)|
  {
    if data != [] {
      CollectedAfter(data, false, lines);
    }
  }

  lemma DataLineIsRead(codec: Codec, line: DataLine, rest: seq<byte>, data: seq<byte>)
    requires Fitting(line)
    ensures NextEvent(codec, PREFIX + line.value + Ending(line.crlf) + rest, data) ==
            if |Joined(data, line.value)| > MAX_EVENT then TooLarge
            else NextEvent(codec, rest, Joined(data, line.value))
  {
    var text := PREFIX + line.value;
    assert IsText(text) by {
      assert forall k | 0 <= k < |PREFIX| :: PREFIX[k] != NEWLINE;
      assert forall k | 0 <= k < |text| :: text[k] == if k < |PREFIX| then PREFIX[k] else line.value[k - |PREFIX|];
    }
    EitherEndingIsRead(text, line.crlf, rest);
    DataField(line.value);
    assert text[0] != COLON;
    hide TakeLine, SplitField, Joined;
  }

  lemma BlankEndsEvent(codec: Codec, crlf: bool, rest: seq<byte>, data: seq<byte>)
    ensures NextEvent(codec, Ending(crlf) + rest, data) ==
            if data == [] then NextEvent(codec, rest, []) else DecodeEvent(codec, data, rest)
  {
    EitherEndingIsRead([], crlf, rest);
    assert [] + Ending(crlf) + rest == Ending(crlf) + rest;
    hide TakeLine, DecodeEvent;
  }

  lemma {:induction false} LinesAreRead(
    codec: Codec, lines: seq<DataLine>, crlf: bool, rest: seq<byte>, data: seq<byte>)
    requires forall k | 0 <= k < |lines| :: Fitting(lines[k])
    requires |data| <= MAX_EVENT
    ensures var text := Collected(data, lines);
            NextEvent(codec, Lines(lines) + (Ending(crlf) + rest), data) ==
            if |text| > MAX_EVENT then TooLarge
            else if text == [] then NextEvent(codec, rest, [])
            else DecodeEvent(codec, text, rest)
    decreases |lines|
  {
    hide NextEvent, DecodeEvent, Joined, Fitting;
    var tail := Ending(crlf) + rest;
    if lines == [] {
      BlankEndsEvent(codec, crlf, rest, data);
      assert Lines(lines) + tail == tail;
    } else {
      var line, next := lines[0], Joined(data, lines[0].value);
      var more := Lines(lines[1..]) + tail;
      assert Lines(lines) + tail == PREFIX + line.value + Ending(line.crlf) + more;
      DataLineIsRead(codec, line, more, data);
      CollectedGrows(next, lines[1..]);
      if |next| <= MAX_EVENT {
        LinesAreRead(codec, lines[1..], crlf, rest, next);
      }
    }
  }

  /**
   An event of any number of data lines, each ended either way: its values joined by newlines, with
   empty ones in front forgotten, are decoded; it is refused exactly when they are over the limit,
   and skipped exactly when there is nothing in them.
   */
  lemma EventIsRead(codec: Codec, lines: seq<DataLine>, crlf: bool, rest: seq<byte>)
    requires forall k | 0 <= k < |lines| :: Fitting(lines[k])
    ensures var text := JoinLines(Trimmed(lines));
            NextEvent(codec, Lines(lines) + (Ending(crlf) + rest), []) ==
            if |text| > MAX_EVENT then TooLarge
            else if text == [] then NextEvent(codec, rest, [])
            else DecodeEvent(codec, text, rest)
  {
    hide NextEvent, DecodeEvent, Fitting;
    LinesAreRead(codec, lines, crlf, rest, []);
    CollectedIs(lines);
  }

  /** What a frame with any text in it comes to: its text trimmed and then told apart. */
  lemma FrameOutcome(codec: Codec, text: seq<byte>, rest: seq<byte>)
    requires IsText(text) && text != []
    ensures var outcome := NextEvent(codec, PREFIX + text + BREAK + rest, []);
            && (outcome.TooLarge? <==> |PREFIX| + |text| > MAX_LINE)
            && (!outcome.TooLarge? ==>
                  && (outcome == Event(Finished, rest) <==> codec.trim(text) == DONE)
                  && (codec.trim(text) != DONE && codec.valid(codec.trim(text)) ==>
                        outcome == Event(Data(codec.trim(text)), rest))
                  && (codec.trim(text) != DONE && !codec.valid(codec.trim(text)) ==> outcome == Invalid))
  {
    FrameIsRead(codec, text, rest);
    hide NextEvent;
  }

  /** Data in front of the end of the input makes a last event. */
  lemma LastEventIsRead(codec: Codec, value: seq<byte>)
    requires IsText(value) && value != [] && |PREFIX| + |value| <= MAX_LINE + 1
    ensures NextEvent(codec, PREFIX + value, []) == DecodeEvent(codec, value, [])
  {
    var text := PREFIX + value;
    assert IsText(text) by {
      assert forall k | 0 <= k < |PREFIX| :: PREFIX[k] != NEWLINE;
      assert forall k | 0 <= k < |text| :: text[k] == if k < |PREFIX| then PREFIX[k] else value[k - |PREFIX|];
    }
    LastLineIsRead(text);
    DataField(value);
    assert text[0] != COLON && Joined([], value) == value;
    assert TakeLine([]) == NoMoreLines;
    hide TakeLine, SplitField, Joined, DecodeEvent;
    assert NextEvent(codec, [], value) == DecodeEvent(codec, value, []);
  }
}
