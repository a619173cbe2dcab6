/**
 What the two stream vocabularies say to each other, stated on the events: the stop reason that is
 written, the order in which blocks are closed, and what the mapper makes of pings, end markers and faults.
 */
module StreamMeaning {
  import opened Wrappers
  import opened AnthropicWriter
  import opened AnthropicMapper
  import opened StreamRoundTrip

  // ---------------------------------------------------------------- the stop reason

  /** The stop reasons in a list of events, in order. */
  function Reasons(events: seq<Event>): seq<string> {
    if events == [] then []
    else (if events[0].MessageDelta? then [events[0].stopReason] else []) + Reasons(events[1..])
  }

  predicate NoEnding(events: seq<Event>) {
    forall k | 0 <= k < |events| :: !events[k].MessageDelta?
  }

  lemma {:induction false} ReasonsConcat(one: seq<Event>, two: seq<Event>)
    ensures Reasons(one + two) == Reasons(one) + Reasons(two)
    decreases |one|
  {
    if one == [] {
      assert one + two == two;
    } else {
      assert (one + two)[1..] == one[1..] + two;
      ReasonsConcat(one[1..], two);
    }
  }

  lemma {:induction false} NoReasons(events: seq<Event>)
    requires NoEnding(events)
    ensures Reasons(events) == []
  {
    if events != [] {
      NoReasons(events[1..]);
    }
  }

  lemma {:induction false} ToolsDoNotEnd(writer: State, calls: seq<ToolCall>)
    ensures NoEnding(WriteTools(writer, calls).events)
    decreases |calls|
  {
    if calls != [] {
      ToolsDoNotEnd(WriteTool(writer, calls[0]).state, calls[1..]);
    }
  }

  lemma {:induction false} ChoicesDoNotEnd(writer: State, choices: seq<Choice>)
    ensures NoEnding(WriteChoices(writer, choices).events)
    decreases |choices|
  {
    if choices != [] {
      ToolsDoNotEnd(WriteContent(writer, choices[0].content).state, choices[0].toolCalls);
      ChoicesDoNotEnd(WriteChoice(writer, choices[0]).state, choices[1..]);
    }
  }

  lemma BodyHasNoReason(writer: State, chunk: Chunk)
    ensures Reasons(WriteBody(writer, chunk).events) == []
  {
    ChoicesDoNotEnd(WriteStart(writer).state, chunk.choices);
    NoReasons(WriteBody(writer, chunk).events);
  }

  lemma {:induction false} StopsDoNotEnd(tools: map<nat, nat>)
    ensures NoEnding(Stops(tools))
    decreases |tools|
  {
    if tools != map[] {
      StopsDoNotEnd(tools - {Least(tools.Keys)});
    }
  }

  lemma EndHasOneReason(writer: State)
    ensures Reasons(WriteEnd(writer).events) == if writer.completed then [] else [StopReason(writer.finish)]
  {
    if !writer.completed {
      var text := if writer.textOpen then [BlockStop(writer.textBlock)] else [];
      var closing := [MessageDelta(StopReason(writer.finish)), MessageStop];
      StopsDoNotEnd(writer.tools);
      NoReasons(text + Stops(writer.tools));
      ReasonsConcat(text + Stops(writer.tools), closing);
      assert closing[1..] == [MessageStop] && Reasons([MessageStop]) == [];
      hide Stops, StopReason;
      assert Reasons(closing) == [StopReason(writer.finish)];
    }
  }

  lemma {:induction false} NoReasonAfterTheEnd(writer: State, chunks: seq<Chunk>)
    requires writer.completed
    ensures Reasons(EncodeFrom(writer, chunks)) == []
    decreases |chunks|
  {
    if chunks == [] {
      EndHasOneReason(writer);
      assert EncodeFrom(writer, []) == WriteEnd(writer).events;
    } else {
      var body := WriteBody(writer, chunks[0]);
      EncodeFromFirst(writer, chunks);
      BodyHasNoReason(writer, chunks[0]);
      BodyNotCompleted(writer, chunks[0]);
      EndHasOneReason(body.state);
      var first := WriteChunk(writer, chunks[0]);
      assert first.state.completed;
      hide WriteBody, WriteChunk, WriteEnd, EncodeFrom;
      NoReasonAfterTheEnd(first.state, chunks[1..]);
      NoReasonAfterTheEnd(body.state, chunks[1..]);
      ReasonsConcat(body.events, EncodeFrom(body.state, chunks[1..]));
      ReasonsConcat(body.events, WriteEnd(body.state).events);
      ReasonsConcat(body.events + WriteEnd(body.state).events, EncodeFrom(first.state, chunks[1..]));
    }
  }

  lemma {:induction false} OneReason(writer: State, sent: Message, chunks: seq<Chunk>)
    requires !writer.completed && writer.finish == "" == Reason(sent)
    ensures Reasons(EncodeFrom(writer, chunks)) == [StopReason(Reason(Assemble(sent, Live(sent, chunks))))]
    decreases |chunks|
  {
    if chunks == [] {
      EndHasOneReason(writer);
      assert EncodeFrom(writer, []) == WriteEnd(writer).events;
    } else {
      var body := WriteBody(writer, chunks[0]);
      var first := WriteChunk(writer, chunks[0]);
      EncodeFromFirst(writer, chunks);
      AssembleFirst(sent, chunks);
      BodyHasNoReason(writer, chunks[0]);
      BodyNotCompleted(writer, chunks[0]);
      BodyFinish(writer, sent, chunks[0]);
      EndHasOneReason(body.state);
      assert body.state.finish != "" ==> first.state.completed;
      hide WriteBody, WriteChunk, WriteEnd, EncodeFrom, StopReason, AddChoices, Assemble, Live;
      if body.state.finish != "" {
        NoReasonAfterTheEnd(first.state, chunks[1..]);
        ReasonsConcat(body.events, WriteEnd(body.state).events);
        ReasonsConcat(body.events + WriteEnd(body.state).events, EncodeFrom(first.state, chunks[1..]));
      } else {
        OneReason(body.state, AddChoices(sent, chunks[0].choices), chunks[1..]);
        ReasonsConcat(body.events, EncodeFrom(body.state, chunks[1..]));
      }
    }
  }

  /** The stop reason a client of the Anthropic protocol must see for a finish reason. */
  predicate Says(finish: string, stop: string) {
    && (finish == "stop" ==> stop == "end_turn")
    && (finish == "length" ==> stop == "max_tokens")
    && (finish == "tool_calls" ==> stop == "tool_use")
    && (finish == "function_call" ==> stop == "tool_use")
    && (finish == "content_filter" ==> stop == "refusal")
    && (finish !in {"stop", "length", "tool_calls", "function_call", "content_filter"} ==> stop == finish)
  }

  /** Every stream has exactly one stop reason, and it says how the stream finished. */
  lemma StopReasonIsWritten(chunks: seq<Chunk>)
    ensures |Reasons(Encode(chunks))| == 1
    ensures Says(Reason(Assemble(NOTHING, Live(NOTHING, chunks))), Reasons(Encode(chunks))[0])
  {
    OneReason(INITIAL, NOTHING, chunks);
    assert Encode(chunks) == EncodeFrom(INITIAL, chunks);
  }

  // ---------------------------------------------------------------- closing order

  predicate Ascending(indices: seq<nat>) {
    forall i, j | 0 <= i < j < |indices| :: indices[i] < indices[j]
  }

  ghost predicate Lists(indices: seq<nat>, tools: map<nat, nat>) {
    Ascending(indices) && forall index :: index in indices <==> index in tools
  }

  predicate Close(events: seq<Event>, indices: seq<nat>, tools: map<nat, nat>) {
    |events| == |indices| &&
    forall k | 0 <= k < |indices| :: indices[k] in tools && events[k] == BlockStop(tools[indices[k]])
  }

  lemma ListsMore(tools: map<nat, nat>, first: nat, rest: seq<nat>)
    requires IsLeast(first, tools.Keys) && Lists(rest, tools - {first})
    ensures Lists([first] + rest, tools)
  {
    forall k | 0 <= k < |rest| ensures first < rest[k] {
      assert rest[k] in rest;
    }
  }

  lemma CloseMore(tools: map<nat, nat>, first: nat, rest: seq<nat>, events: seq<Event>)
    requires first in tools && Close(events, rest, tools - {first})
    ensures Close([BlockStop(tools[first])] + events, [first] + rest, tools)
  {
  }

  /** Tools are closed in the order of their OpenAI index, each once. */
  lemma {:induction false} StopsInOrder(tools: map<nat, nat>) returns (indices: seq<nat>)
    ensures Lists(indices, tools) && Close(Stops(tools), indices, tools)
    decreases |tools|
  {
    if tools == map[] {
      indices := [];
    } else {
      hide Lists, Close;
      var first := Least(tools.Keys);
      var rest := StopsInOrder(tools - {first});
      indices := [first] + rest;
      ListsMore(tools, first, rest);
      CloseMore(tools, first, rest, Stops(tools - {first}));
    }
  }

  // ---------------------------------------------------------------- what else a provider may send

  function WithoutPings(events: seq<Event>): seq<Event> {
    if events == [] then []
    else (if events[0] == Ping then [] else [events[0]]) + WithoutPings(events[1..])
  }

  /** Pings anywhere in a stream do not change what is decoded. */
  lemma {:induction false} PingsAreInvisible(mapper: Mapper, events: seq<Event>)
    ensures Decode(mapper, events) == Decode(mapper, WithoutPings(events))
    decreases |events|
  {
    if events != [] {
      var rest := WithoutPings(events[1..]);
      if events[0] == Ping {
        PingsAreInvisible(mapper, events[1..]);
        assert [] + rest == rest;
        var decoded := Decode(mapper, events[1..]);
        assert !decoded.Broken? ==> [] + decoded.chunks == decoded.chunks;
      } else {
        assert ([events[0]] + rest)[0] == events[0] && ([events[0]] + rest)[1..] == rest;
        var mapped := MapEvent(mapper, events[0]);
        hide MapEvent;
        if mapped.Emits? {
          PingsAreInvisible(mapped.mapper, events[1..]);
        }
      }
    }
  }

  /** An end marker ends the stream with what was decoded so far, a fault breaks it off. */
  lemma EndsAndFaults(mapper: Mapper, before: seq<Event>, after: seq<Event>)
    requires Decode(mapper, before).Streaming?
    ensures Decode(mapper, before + ([EndMarker] + after)) == Finished(Decode(mapper, before).chunks)
    ensures Decode(mapper, before + ([Faulty] + after)) == Broken
  {
    var d := Decode(mapper, before);
    DecodeConcat(mapper, before, [EndMarker] + after);
    DecodeConcat(mapper, before, [Faulty] + after);
    assert Decode(d.mapper, [EndMarker] + after) == Finished([]);
    assert d.chunks + [] == d.chunks;
  }

  /** The finish reason a client of the OpenAI protocol sees for a stop reason. */
  predicate Means(stop: string, finish: string) {
    && (stop == "max_tokens" ==> finish == "length")
    && (stop == "tool_use" ==> finish == "tool_calls")
    && (stop == "refusal" ==> finish == "content_filter")
    && (stop !in {"max_tokens", "tool_use", "refusal"} ==> finish == "stop")
  }

  lemma StopReasonIsRead(mapper: Mapper, message: Message, stop: string)
    ensures var decoded := Decode(mapper, [MessageDelta(stop)]);
            && decoded.Streaming? && decoded.mapper == mapper
            && var after := Assemble(message, decoded.chunks);
               after.finish.Some? && Means(stop, after.finish.value) &&
               after.text == message.text && after.tools == message.tools
  {
    DecodeOne(mapper, MessageDelta(stop));
    AssembleDelta(message, None, [], Some(FinishReason(stop)));
    assert AddCalls(message, []) == message;
  }

  /** What a client of the OpenAI protocol receives for an event: a chunk of its own, or nothing. */
  lemma EventsBecomeChunks(mapper: Mapper, event: Event)
    ensures var mapped := MapEvent(mapper, event);
            && (mapped.Invalid? <==>
                  || event.Faulty?
                  || (event.BlockStart? && event.block.ToolBlock? && (event.block.id == "" || event.block.name == ""))
                  || (event.JsonDelta? && event.index !in mapper.toolIndexByBlock))
            && (mapped.Emits? ==>
                  && (mapped.done <==> event.MessageStop? || event.EndMarker?)
                  && (mapped.chunks == [] <==> event.BlockStop? || event.MessageStop? || event.EndMarker? || event.Ping?)
                  && (mapped.chunks != [] ==> |mapped.chunks| == 1 && |mapped.chunks[0].choices| == 1)
                  && (event.MessageStart? ==> mapped.chunks[0].choices[0] == Choice(None, [], None))
                  && (event.TextDelta? ==> mapped.chunks[0].choices[0] == Choice(Some(event.text), [], None))
                  && (event.JsonDelta? ==>
                        mapped.chunks[0].choices[0] ==
                        Choice(None, [ToolCall(mapper.toolIndexByBlock[event.index], "", "", event.partial)], None)))
  {
  }

  /** A text block that opens with text brings it along. */
  lemma OpeningTextIsRead(mapper: Mapper, message: Message, index: nat, text: string)
    ensures var decoded := Decode(mapper, [BlockStart(index, TextBlock(text))]);
            decoded.Streaming? && decoded.mapper == mapper &&
            Assemble(message, decoded.chunks) == message.(text := message.text + text)
  {
    DecodeOne(mapper, BlockStart(index, TextBlock(text)));
    AssembleDelta(message, Some(text), [], None);
    assert AddCalls(AddContent(message, Some(text)), []) == AddContent(message, Some(text));
  }
}
