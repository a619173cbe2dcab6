/**
 The order in which Anthropic events may follow each other, and when the writer keeps to it:
 exactly when nothing is left to say after the chunk that carries the finish reason.
 */
module EventGrammar {
  import opened Wrappers
  import opened AnthropicWriter
  import opened AnthropicMapper
  import opened StreamRoundTrip

  /** Blocks are opened with consecutive indices; `closed` holds the indices stopped so far. */
  datatype Stage = Unstarted | Body(blocks: seq<Block>, closed: set<nat>) | Ending | Ended | Rejected

  predicate Open(stage: Stage, index: nat) {
    stage.Body? && index < |stage.blocks| && index !in stage.closed
  }

  predicate AllClosed(stage: Stage) {
    stage.Body? && forall index :: 0 <= index < |stage.blocks| ==> index in stage.closed
  }

  function Advance(stage: Stage, event: Event): Stage {
    match event
    case MessageStart => if stage.Unstarted? then Body([], {}) else Rejected
    case BlockStart(index, block) =>
      if stage.Body? && index == |stage.blocks| then Body(stage.blocks + [block], stage.closed) else Rejected
    case TextDelta(index, _) => if Open(stage, index) && stage.blocks[index].TextBlock? then stage else Rejected
    case JsonDelta(index, _) => if Open(stage, index) && stage.blocks[index].ToolBlock? then stage else Rejected
    case BlockStop(index) =>
      if Open(stage, index) then Body(stage.blocks, stage.closed + {index}) else Rejected
    case MessageDelta(_) => if AllClosed(stage) then Ending else Rejected
    case MessageStop => if stage.Ending? then Ended else Rejected
    case Ping => if stage.Ended? then Rejected else stage
    case EndMarker | Faulty => Rejected
  }

  function Run(stage: Stage, events: seq<Event>): Stage
    decreases |events|
  {
    if events == [] then stage else Run(Advance(stage, events[0]), events[1..])
  }

  predicate WellFormed(events: seq<Event>) {
    Run(Unstarted, events) == Ended
  }

  lemma {:induction false} RunConcat(stage: Stage, one: seq<Event>, two: seq<Event>)
    ensures Run(stage, one + two) == Run(Run(stage, one), two)
    decreases |one|
  {
    if one == [] {
      assert one + two == two;
    } else {
      hide Advance;
      assert (one + two)[1..] == one[1..] + two;
      RunConcat(Advance(stage, one[0]), one[1..], two);
    }
  }

  lemma RunOne(stage: Stage, event: Event)
    ensures Run(stage, [event]) == Advance(stage, event)
  {
    hide Advance;
    assert [event][1..] == [];
    assert Run(Advance(stage, event), []) == Advance(stage, event);
  }

  lemma {:induction false} RejectedStays(events: seq<Event>)
    ensures Run(Rejected, events) == Rejected
    decreases |events|
  {
    if events != [] {
      RejectedStays(events[1..]);
    }
  }

  lemma NothingAfterTheEnd(events: seq<Event>)
    ensures Run(Ended, events) == Ended <==> events == []
  {
    if events != [] {
      RejectedStays(events[1..]);
    }
  }

  // ---------------------------------------------------------------- writer and grammar in step

  predicate Injective(tools: map<nat, nat>) {
    forall i, j | i in tools && j in tools && i != j :: tools[i] != tools[j]
  }

  /** The open blocks are the text block and one block for each tool, none closed yet. */
  predicate Balanced(writer: State, stage: Stage) {
    && stage.Body? && stage.closed == {}
    && |stage.blocks| == writer.nextBlock
    && (writer.textOpen ==> writer.textBlock < |stage.blocks| && stage.blocks[writer.textBlock].TextBlock?)
    && (forall index | index in writer.tools ::
          writer.tools[index] < |stage.blocks| && stage.blocks[writer.tools[index]].ToolBlock?)
    && Injective(writer.tools)
    && (forall block | 0 <= block < |stage.blocks| ::
          (writer.textOpen && block == writer.textBlock) || block in writer.tools.Values)
  }

  lemma ContentBalanced(writer: State, stage: Stage, content: Option<string>)
    requires Balanced(writer, stage)
    ensures var written := WriteContent(writer, content);
            Balanced(written.state, Run(stage, written.events))
  {
    if content.Some? {
      if writer.textOpen {
        RunOne(stage, TextDelta(writer.textBlock, content.value));
      } else {
        var start := BlockStart(writer.nextBlock, TextBlock(""));
        var delta := TextDelta(writer.nextBlock, content.value);
        RunConcat(stage, [start], [delta]);
        RunOne(stage, start);
        var next := Body(stage.blocks + [TextBlock("")], {});
        RunOne(next, delta);
        assert [start] + [delta] == [start, delta];
        var state := WriteContent(writer, content).state;
        forall block | 0 <= block < |next.blocks|
          ensures block == state.textBlock || block in state.tools.Values
        {
          assert block < |stage.blocks| ==> next.blocks[block] == stage.blocks[block];
        }
        assert Balanced(state, next);
      }
    }
  }

  lemma ToolStartBalanced(writer: State, stage: Stage, call: ToolCall)
    requires Balanced(writer, stage) && call.index !in writer.tools
    ensures Balanced(WriteTool(writer, call).state, Body(stage.blocks + [ToolBlock(call.id, call.name)], {}))
  {
    var state := WriteTool(writer, call).state;
    var blocks := stage.blocks + [ToolBlock(call.id, call.name)];
    assert state.tools == writer.tools[call.index := writer.nextBlock];
    forall index | index in state.tools
      ensures state.tools[index] < |blocks| && blocks[state.tools[index]].ToolBlock?
    {
      assert index != call.index ==> index in writer.tools;
    }
    forall block | 0 <= block < |blocks|
      ensures (state.textOpen && block == state.textBlock) || block in state.tools.Values
    {
      if block == writer.nextBlock {
        assert state.tools[call.index] == block;
      } else if block in writer.tools.Values {
        var index :| index in writer.tools && writer.tools[index] == block;
        assert state.tools[index] == block;
      }
    }
  }

  lemma ToolBalanced(writer: State, stage: Stage, call: ToolCall)
    requires Balanced(writer, stage)
    ensures var written := WriteTool(writer, call);
            Balanced(written.state, Run(stage, written.events))
  {
    var written := WriteTool(writer, call);
    var known := call.index in writer.tools;
    var block := if known then writer.tools[call.index] else writer.nextBlock;
    var delta := if call.arguments == "" then [] else [JsonDelta(block, call.arguments)];
    var start := BlockStart(block, ToolBlock(call.id, call.name));
    var next := if known then stage else Body(stage.blocks + [ToolBlock(call.id, call.name)], {});
    if !known {
      ToolStartBalanced(writer, stage, call);
      RunOne(stage, start);
      RunConcat(stage, [start], delta);
    }
    assert Run(stage, written.events) == Run(next, delta);
    assert Open(next, block) && next.blocks[block].ToolBlock?;
    RunOne(next, JsonDelta(block, call.arguments));
    hide Balanced;
    assert Run(next, delta) == next;
  }

  lemma {:induction false} ToolsBalanced(writer: State, stage: Stage, calls: seq<ToolCall>)
    requires Balanced(writer, stage)
    ensures var written := WriteTools(writer, calls);
            Balanced(written.state, Run(stage, written.events))
    decreases |calls|
  {
    if calls != [] {
      ToolBalanced(writer, stage, calls[0]);
      hide WriteTool, Balanced;
      var first := WriteTool(writer, calls[0]);
      var rest := WriteTools(first.state, calls[1..]);
      RunConcat(stage, first.events, rest.events);
      ToolsBalanced(first.state, Run(stage, first.events), calls[1..]);
    }
  }

  lemma FinishBalanced(writer: State, stage: Stage, finish: string)
    requires Balanced(writer, stage)
    ensures Balanced(writer.(finish := finish), stage)
  {
    var next := writer.(finish := finish);
    assert forall index | index in next.tools :: index in writer.tools;
    assert next.tools.Values == writer.tools.Values;
  }

  lemma ChoiceBalanced(writer: State, stage: Stage, choice: Choice)
    requires Balanced(writer, stage)
    ensures var written := WriteChoice(writer, choice);
            Balanced(written.state, Run(stage, written.events))
  {
    ContentBalanced(writer, stage, choice.content);
    hide Balanced, WriteContent, WriteTools;
    var content := WriteContent(writer, choice.content);
    var tools := WriteTools(content.state, choice.toolCalls);
    RunConcat(stage, content.events, tools.events);
    ToolsBalanced(content.state, Run(stage, content.events), choice.toolCalls);
    if choice.finish.Some? {
      FinishBalanced(tools.state, Run(stage, content.events + tools.events), choice.finish.value);
    }
  }

  lemma {:induction false} ChoicesBalanced(writer: State, stage: Stage, choices: seq<Choice>)
    requires Balanced(writer, stage)
    ensures var written := WriteChoices(writer, choices);
            Balanced(written.state, Run(stage, written.events))
    decreases |choices|
  {
    if choices != [] {
      ChoiceBalanced(writer, stage, choices[0]);
      hide WriteChoice, Balanced;
      var first := WriteChoice(writer, choices[0]);
      var rest := WriteChoices(first.state, choices[1..]);
      RunConcat(stage, first.events, rest.events);
      ChoicesBalanced(first.state, Run(stage, first.events), choices[1..]);
    }
  }

  /** Before the first chunk, or with the message started and all blocks open. */
  predicate Ready(writer: State, stage: Stage) {
    if writer.started then Balanced(writer, stage) else writer == INITIAL && stage == Unstarted
  }

  lemma BodyBalanced(writer: State, stage: Stage, chunk: Chunk)
    requires Ready(writer, stage)
    ensures var written := WriteBody(writer, chunk);
            Balanced(written.state, Run(stage, written.events))
  {
    var start := WriteStart(writer);
    if !writer.started {
      RunOne(Unstarted, MessageStart);
    }
    assert start.state.tools == writer.tools;
    assert writer.started ==> start.state == writer;
    assert Balanced(start.state, Run(stage, start.events));
    hide Balanced, WriteStart, WriteChoices;
    RunConcat(stage, start.events, WriteChoices(start.state, chunk.choices).events);
    ChoicesBalanced(start.state, Run(stage, start.events), chunk.choices);
  }

  // ---------------------------------------------------------------- the end of the stream

  predicate StillOpen(stage: Stage, tools: map<nat, nat>) {
    Injective(tools) && forall index | index in tools :: Open(stage, tools[index])
  }

  lemma StopCloses(stage: Stage, tools: map<nat, nat>, index: nat, rest: seq<Event>)
    requires stage.Body? && StillOpen(stage, tools) && index in tools
    ensures Run(stage, [BlockStop(tools[index])] + rest) ==
            Run(Body(stage.blocks, stage.closed + {tools[index]}), rest)
  {
    RunOne(stage, BlockStop(tools[index]));
    RunConcat(stage, [BlockStop(tools[index])], rest);
  }

  lemma {:induction false} StopsClose(stage: Stage, tools: map<nat, nat>)
    requires stage.Body? && StillOpen(stage, tools)
    ensures Run(stage, Stops(tools)) == Body(stage.blocks, stage.closed + tools.Values)
    decreases |tools|
  {
    hide StillOpen;
    if tools == map[] {
      assert stage.closed + tools.Values == stage.closed;
    } else {
      hide Run, Injective;
      var index := Least(tools.Keys);
      var rest := tools - {index};
      StopCloses(stage, tools, index, Stops(rest));
      OthersStayOpen(stage, tools, index);
      ValuesSplit(stage.closed, tools, index);
      StopsClose(Body(stage.blocks, stage.closed + {tools[index]}), rest);
    }
  }

  lemma OthersStayOpen(stage: Stage, tools: map<nat, nat>, index: nat)
    requires stage.Body? && StillOpen(stage, tools) && index in tools
    ensures StillOpen(Body(stage.blocks, stage.closed + {tools[index]}), tools - {index})
  {
    var rest := tools - {index};
    assert forall i | i in rest :: i in tools && i != index && rest[i] == tools[i];
  }

  lemma ValuesSplit(closed: set<nat>, tools: map<nat, nat>, index: nat)
    requires index in tools
    ensures closed + {tools[index]} + (tools - {index}).Values == closed + tools.Values
  {
    forall block | block in tools.Values
      ensures block in {tools[index]} + (tools - {index}).Values
    {
      var i :| i in tools && tools[i] == block;
      assert i != index ==> i in tools - {index} && (tools - {index})[i] == block;
    }
  }

  lemma TextCloses(writer: State, stage: Stage)
    requires Balanced(writer, stage)
    ensures var text := if writer.textOpen then [BlockStop(writer.textBlock)] else [];
            Run(stage, text) == Body(stage.blocks, if writer.textOpen then {writer.textBlock} else {})
    ensures StillOpen(Body(stage.blocks, if writer.textOpen then {writer.textBlock} else {}), writer.tools)
  {
    if writer.textOpen {
      RunOne(stage, BlockStop(writer.textBlock));
      assert {} + {writer.textBlock} == {writer.textBlock};
    }
  }

  lemma EndCloses(writer: State, stage: Stage)
    requires Balanced(writer, stage) && !writer.completed
    ensures Run(stage, WriteEnd(writer).events) == Ended
  {
    var text := if writer.textOpen then [BlockStop(writer.textBlock)] else [];
    var closed := if writer.textOpen then {writer.textBlock} else {};
    var delta := MessageDelta(StopReason(writer.finish));
    var all := Body(stage.blocks, closed + writer.tools.Values);
    assert AllClosed(all);
    TextCloses(writer, stage);
    StopsClose(Body(stage.blocks, closed), writer.tools);
    hide Balanced, StillOpen, Stops, StopReason;
    RunOne(all, delta);
    RunOne(Ending, MessageStop);
    RunConcat(all, [delta], [MessageStop]);
    RunConcat(stage, text, Stops(writer.tools));
    RunConcat(stage, text + Stops(writer.tools), [delta, MessageStop]);
    assert [delta] + [MessageStop] == [delta, MessageStop];
  }

  // ---------------------------------------------------------------- what is written after it

  /** The writer knows exactly the tools of the message. */
  predicate Knows(writer: State, message: Message) {
    && (forall k | 0 <= k < |message.tools| :: message.tools[k].index in writer.tools)
    && (forall index | index in writer.tools :: Position(message.tools, index) < |message.tools|)
  }

  predicate Tracks(writer: State, message: Message) {
    Knows(writer, message) && writer.finish == Reason(message)
  }

  lemma CallTracked(writer: State, message: Message, call: ToolCall)
    requires Tracks(writer, message)
    ensures Tracks(WriteTool(writer, call).state, AddCall(message, call))
  {
    if Position(message.tools, call.index) < |message.tools| {
      KnownCallTracked(writer, message, call);
    } else {
      NewCallTracked(writer, message, call);
    }
  }

  lemma KnownCallTracked(writer: State, message: Message, call: ToolCall)
    requires Tracks(writer, message) && Position(message.tools, call.index) < |message.tools|
    ensures Tracks(WriteTool(writer, call).state, AddCall(message, call))
  {
    var after := AddCall(message, call).tools;
    assert WriteTool(writer, call).state == writer;
    forall index | index in writer.tools
      ensures Position(after, index) < |after|
    {
      assert after[Position(message.tools, index)].index == index;
    }
  }

  lemma NewCallTracked(writer: State, message: Message, call: ToolCall)
    requires Tracks(writer, message) && Position(message.tools, call.index) == |message.tools|
    ensures Tracks(WriteTool(writer, call).state, AddCall(message, call))
  {
    var tool := Tool(call.index, call.id, call.name, call.arguments);
    var state := WriteTool(writer, call).state;
    assert call.index !in writer.tools;
    assert state.tools == writer.tools[call.index := writer.nextBlock];
    assert AddCall(message, call) == message.(tools := message.tools + [tool]);
    hide WriteTool, AddCall;
    assert Reason(AddCall(message, call)) == Reason(message);
    KnowsNewTool(writer, message, state, tool);
  }

  lemma KnowsNewTool(writer: State, message: Message, state: State, tool: Tool)
    requires Knows(writer, message) && state.tools.Keys == writer.tools.Keys + {tool.index}
    ensures Knows(state, message.(tools := message.tools + [tool]))
  {
    hide Position;
    forall index | index in state.tools
      ensures Position(message.tools + [tool], index) <= |message.tools|
    {
      PositionConcat(message.tools, tool, index);
      assert index != tool.index ==> index in writer.tools;
    }
  }

  lemma {:induction false} CallsTracked(writer: State, message: Message, calls: seq<ToolCall>)
    requires Tracks(writer, message)
    ensures Tracks(WriteTools(writer, calls).state, AddCalls(message, calls))
    decreases |calls|
  {
    if calls != [] {
      CallTracked(writer, message, calls[0]);
      hide WriteTool, AddCall, Tracks;
      CallsTracked(WriteTool(writer, calls[0]).state, AddCall(message, calls[0]), calls[1..]);
    }
  }

  lemma ContentTracked(writer: State, message: Message, content: Option<string>)
    requires Tracks(writer, message)
    ensures Tracks(WriteContent(writer, content).state, AddContent(message, content))
  {
    assert WriteContent(writer, content).state.tools == writer.tools;
  }

  lemma FinishTracked(writer: State, message: Message, finish: Option<string>)
    requires Tracks(writer, message)
    ensures Tracks(if finish.Some? then writer.(finish := finish.value) else writer, AddFinish(message, finish))
  {
  }

  lemma {:induction false} ChoicesTracked(writer: State, message: Message, choices: seq<Choice>)
    requires Tracks(writer, message)
    ensures Tracks(WriteChoices(writer, choices).state, AddChoices(message, choices))
    decreases |choices|
  {
    if choices != [] {
      var choice := choices[0];
      hide WriteTools, AddCalls, Tracks, WriteContent, AddContent;
      var content := WriteContent(writer, choice.content).state;
      ContentTracked(writer, message, choice.content);
      CallsTracked(content, AddContent(message, choice.content), choice.toolCalls);
      FinishTracked(WriteTools(content, choice.toolCalls).state,
                    AddCalls(AddContent(message, choice.content), choice.toolCalls), choice.finish);
      ChoicesTracked(WriteChoice(writer, choice).state, AddChoice(message, choice), choices[1..]);
    }
  }

  lemma CallSilence(writer: State, message: Message, call: ToolCall)
    requires Knows(writer, message)
    ensures WriteTool(writer, call).events == [] <==> SilentCall(message, call)
    ensures SilentCall(message, call) ==> WriteTool(writer, call).state == writer
  {
    var p := Position(message.tools, call.index);
  }

  lemma {:induction false} CallsSilence(writer: State, message: Message, calls: seq<ToolCall>)
    requires Knows(writer, message)
    ensures WriteTools(writer, calls).events == [] <==>
            forall k :: 0 <= k < |calls| ==> SilentCall(message, calls[k])
    ensures WriteTools(writer, calls).events == [] ==> WriteTools(writer, calls).state == writer
    decreases |calls|
  {
    if calls != [] {
      CallSilence(writer, message, calls[0]);
      hide WriteTool, Knows, SilentCall;
      if SilentCall(message, calls[0]) {
        CallsSilence(writer, message, calls[1..]);
        assert forall k :: 1 <= k < |calls| ==> calls[k] == calls[1..][k - 1];
      }
    }
  }

  lemma ChoiceSilence(writer: State, message: Message, choice: Choice)
    requires Knows(writer, message)
    ensures WriteChoice(writer, choice).events == [] <==> SilentChoice(message, choice)
    ensures SilentChoice(message, choice) ==> WriteChoice(writer, choice).state.tools == writer.tools
  {
    if choice.content.None? {
      CallsSilence(writer, message, choice.toolCalls);
    }
  }

  lemma {:induction false} ChoicesSilence(writer: State, message: Message, choices: seq<Choice>)
    requires Knows(writer, message)
    ensures WriteChoices(writer, choices).events == [] <==>
            forall k :: 0 <= k < |choices| ==> SilentChoice(message, choices[k])
    ensures WriteChoices(writer, choices).events == [] ==>
              WriteChoices(writer, choices).state.tools == writer.tools
    decreases |choices|
  {
    if choices != [] {
      ChoiceSilence(writer, message, choices[0]);
      hide WriteChoice, SilentChoice, Position;
      if SilentChoice(message, choices[0]) {
        ChoicesSilence(WriteChoice(writer, choices[0]).state, message, choices[1..]);
        assert forall k :: 1 <= k < |choices| ==> choices[k] == choices[1..][k - 1];
      }
    }
  }

  lemma ChunkSilence(writer: State, message: Message, chunk: Chunk)
    requires Knows(writer, message) && writer.started && writer.completed
    ensures WriteChunk(writer, chunk).events == [] <==> SilentChunk(message, chunk)
    ensures SilentChunk(message, chunk) ==>
              var next := WriteChunk(writer, chunk).state;
              Knows(next, message)
    ensures var next := WriteChunk(writer, chunk).state;
            next.started && next.completed
  {
    ChoicesSilence(writer, message, chunk.choices);
    assert WriteStart(writer).state == writer;
    ChoicesKeepCompleted(writer, chunk.choices);
    ChoicesKeepStarted(writer, chunk.choices);
  }

  lemma {:induction false} ToolsKeepStarted(writer: State, calls: seq<ToolCall>)
    ensures WriteTools(writer, calls).state.started == writer.started
    decreases |calls|
  {
    if calls != [] {
      ToolsKeepStarted(WriteTool(writer, calls[0]).state, calls[1..]);
    }
  }

  lemma {:induction false} ChoicesKeepStarted(writer: State, choices: seq<Choice>)
    ensures WriteChoices(writer, choices).state.started == writer.started
    decreases |choices|
  {
    if choices != [] {
      ToolsKeepStarted(WriteContent(writer, choices[0].content).state, choices[0].toolCalls);
      ChoicesKeepStarted(WriteChoice(writer, choices[0]).state, choices[1..]);
    }
  }

  lemma {:induction false} TailSilence(writer: State, message: Message, chunks: seq<Chunk>)
    requires Knows(writer, message) && writer.started && writer.completed
    ensures EncodeFrom(writer, chunks) == [] <==> Silent(message, chunks)
    decreases |chunks|
  {
    if chunks != [] {
      ChunkSilence(writer, message, chunks[0]);
      hide WriteChunk, SilentChunk, Knows;
      var first := WriteChunk(writer, chunks[0]);
      var rest := WriteChunks(first.state, chunks[1..]);
      Regroup(first.events, rest.events, WriteEnd(rest.state).events);
      assert EncodeFrom(writer, chunks) == first.events + EncodeFrom(first.state, chunks[1..]);
      if SilentChunk(message, chunks[0]) {
        TailSilence(first.state, message, chunks[1..]);
        assert forall k :: 1 <= k < |chunks| ==> chunks[k] == chunks[1..][k - 1];
      }
    }
  }

  // ---------------------------------------------------------------- the theorem

  /** The chunks after the finishing one, for a stream already under way. */
  function TailFrom(message: Message, chunks: seq<Chunk>): seq<Chunk> {
    LiveIsPrefix(message, chunks);
    chunks[|Live(message, chunks)|..]
  }

  lemma TailFromFirst(message: Message, chunks: seq<Chunk>)
    requires chunks != []
    ensures var middle := AddChoices(message, chunks[0].choices);
            TailFrom(message, chunks) ==
            if Reason(middle) != "" then chunks[1..] else TailFrom(middle, chunks[1..])
  {
    hide AddChoices;
    LiveIsPrefix(message, chunks);
  }

  lemma {:induction false} StreamWellFormed(writer: State, stage: Stage, sent: Message, chunks: seq<Chunk>)
    requires Ready(writer, stage) && Tracks(writer, sent)
    requires writer.finish == "" && !writer.completed
    requires writer.started || chunks != []
    ensures Run(stage, EncodeFrom(writer, chunks)) == Ended <==>
            Silent(Assemble(sent, Live(sent, chunks)), TailFrom(sent, chunks))
    decreases |chunks|
  {
    if chunks == [] {
      EndCloses(writer, stage);
      assert EncodeFrom(writer, []) == WriteEnd(writer).events;
    } else {
      var body := WriteBody(writer, chunks[0]);
      var middle := AddChoices(sent, chunks[0].choices);
      var first := WriteChunk(writer, chunks[0]);
      assert first == if body.state.finish != "" then Then(body, WriteEnd(body.state)) else body;
      EncodeFromFirst(writer, chunks);
      AssembleFirst(sent, chunks);
      TailFromFirst(sent, chunks);
      BodyBalanced(writer, stage, chunks[0]);
      BodyNotCompleted(writer, chunks[0]);
      BodyStarted(writer, chunks[0]);
      BodyTracked(writer, sent, chunks[0]);
      var next := Run(stage, body.events);
      hide Balanced, WriteBody, WriteChunk, AddChoices, EncodeFrom, Live, Assemble, TailFrom, Run, Silent;
      if Reason(middle) != "" {
        EndCloses(body.state, next);
        var rest := EncodeFrom(first.state, chunks[1..]);
        RunConcat(stage, body.events, WriteEnd(body.state).events);
        RunConcat(stage, body.events + WriteEnd(body.state).events, rest);
        NothingAfterTheEnd(rest);
        assert first.state == body.state.(completed := true);
        assert Knows(first.state, middle);
        TailSilence(first.state, middle, chunks[1..]);
      } else {
        RunConcat(stage, body.events, EncodeFrom(body.state, chunks[1..]));
        StreamWellFormed(body.state, next, middle, chunks[1..]);
      }
    }
  }

  lemma BodyStarted(writer: State, chunk: Chunk)
    ensures WriteBody(writer, chunk).state.started
  {
    ChoicesKeepStarted(WriteStart(writer).state, chunk.choices);
  }

  lemma BodyTracked(writer: State, sent: Message, chunk: Chunk)
    requires Tracks(writer, sent)
    ensures Tracks(WriteBody(writer, chunk).state, AddChoices(sent, chunk.choices))
  {
    var start := WriteStart(writer).state;
    assert start.tools == writer.tools;
    assert Tracks(start, sent);
    ChoicesTracked(start, sent, chunk.choices);
  }

  /**
   The events of a stream are well formed (consecutive block indices, deltas only inside an open
   block of their kind, every block closed exactly once before the end, nothing after it) exactly
   when there was a chunk at all and the chunks after the finishing one are silent.
   */
  lemma EncodingIsWellFormed(chunks: seq<Chunk>)
    ensures WellFormed(Encode(chunks)) <==>
            chunks != [] && Silent(Assemble(NOTHING, Live(NOTHING, chunks)), Tail(chunks))
  {
    if chunks == [] {
      assert Encode([]) == [MessageDelta(""), MessageStop] by {
        assert [] + [] + [MessageDelta(""), MessageStop] == [MessageDelta(""), MessageStop];
      }
      assert Encode([])[1..] == [MessageStop];
      RejectedStays([MessageStop]);
    } else {
      StreamWellFormed(INITIAL, Unstarted, NOTHING, chunks);
      assert Encode(chunks) == EncodeFrom(INITIAL, chunks);
      assert TailFrom(NOTHING, chunks) == Tail(chunks);
    }
  }
}
