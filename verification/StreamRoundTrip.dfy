/**
 Writing a chunk stream as Anthropic events and mapping it back: text, tools and finish
 reason survive, for every chunk stream whose tools are introduced with an id and a name.
 */
module StreamRoundTrip {
  import opened Wrappers
  import opened AnthropicWriter
  import opened AnthropicMapper

  /** Every tool was introduced with an id and a name. */
  predicate Named(message: Message) {
    forall k :: 0 <= k < |message.tools| ==> message.tools[k].id != "" && message.tools[k].name != ""
  }

  /** The finish reason a message carries; empty when none arrived. */
  function Reason(message: Message): string {
    if message.finish.Some? then message.finish.value else ""
  }

  /** The same tools in the same order, numbered by first appearance. */
  predicate Renumbered(sent: seq<Tool>, got: seq<Tool>) {
    |got| == |sent| &&
    forall k :: 0 <= k < |sent| ==> got[k] == sent[k].(index := k)
  }

  predicate Distinct(tools: seq<Tool>) {
    forall j, k :: 0 <= j < k < |tools| ==> tools[j].index != tools[k].index
  }

  /** The tool at position k of `sent` lives in a block the mapper files under k. */
  predicate Filed(writer: State, mapper: Mapper, sent: seq<Tool>) {
    && (forall k :: 0 <= k < |sent| ==> sent[k].index in writer.tools)
    && (forall k :: 0 <= k < |sent| ==>
      writer.tools[sent[k].index] in mapper.toolIndexByBlock &&
      mapper.toolIndexByBlock[writer.tools[sent[k].index]] == k)
    && (forall index | index in writer.tools :: Position(sent, index) < |sent|)
    && (forall index | index in writer.tools :: writer.tools[index] < writer.nextBlock)
  }

  /** Writer and mapper in step: `sent` was written, `got` is what came out of the mapper. */
  predicate InStep(writer: State, mapper: Mapper, sent: Message, got: Message) {
    && got.text == sent.text
    && got.finish == None
    && writer.finish == Reason(sent)
    && mapper.nextToolIndex == |sent.tools|
    && Distinct(sent.tools)
    && Renumbered(sent.tools, got.tools)
    && Filed(writer, mapper, sent.tools)
  }

  /** What a delivery of `written` does: `after` gets through exactly when it is named. */
  ghost predicate Carried(mapper: Mapper, got: Message, written: Written, after: Message) {
    match Decode(mapper, written.events)
    case Streaming(next, chunks) => Named(after) && InStep(written.state, next, after, Assemble(got, chunks))
    case Finished(_) => false
    case Broken => !Named(after)
  }

  /** Tools are only ever added, and keep their id and name. */
  predicate Extends(before: Message, after: Message) {
    |before.tools| <= |after.tools| &&
    forall k :: 0 <= k < |before.tools| ==>
      before.tools[k].id == after.tools[k].id && before.tools[k].name == after.tools[k].name
  }

  lemma CallExtends(message: Message, call: ToolCall)
    ensures Extends(message, AddCall(message, call))
  {
  }

  lemma {:induction false} CallsExtend(message: Message, calls: seq<ToolCall>)
    ensures Extends(message, AddCalls(message, calls))
    decreases |calls|
  {
    if calls != [] {
      CallExtends(message, calls[0]);
      hide AddCall;
      CallsExtend(AddCall(message, calls[0]), calls[1..]);
    }
  }

  lemma ChoiceExtends(message: Message, choice: Choice)
    ensures Extends(message, AddChoice(message, choice))
  {
    CallsExtend(AddContent(message, choice.content), choice.toolCalls);
  }

  lemma {:induction false} ChoicesExtend(message: Message, choices: seq<Choice>)
    ensures Extends(message, AddChoices(message, choices))
    decreases |choices|
  {
    if choices != [] {
      ChoiceExtends(message, choices[0]);
      hide AddChoice;
      ChoicesExtend(AddChoice(message, choices[0]), choices[1..]);
    }
  }

  lemma {:induction false} AssembleExtends(message: Message, chunks: seq<Chunk>)
    ensures Extends(message, Assemble(message, chunks))
    decreases |chunks|
  {
    if chunks != [] {
      ChoicesExtend(message, chunks[0].choices);
      hide AddChoices;
      AssembleExtends(AddChoices(message, chunks[0].choices), chunks[1..]);
    }
  }

  lemma CarriedNothing(writer: State, mapper: Mapper, sent: Message, got: Message)
    requires InStep(writer, mapper, sent, got) && Named(sent)
    ensures Carried(mapper, got, Written(writer, []), sent)
  {
  }

  /** Two deliveries, one after the other. */
  lemma CarriedThen(mapper: Mapper, got: Message, first: Written, next: Written, middle: Message, after: Message)
    requires Carried(mapper, got, first, middle) && Extends(middle, after)
    requires Named(middle) ==>
               var d := Decode(mapper, first.events);
               d.Streaming? && Carried(d.mapper, Assemble(got, d.chunks), next, after)
    ensures Carried(mapper, got, Then(first, next), after)
  {
    hide InStep, Decode;
    DecodeConcat(mapper, first.events, next.events);
    var d := Decode(mapper, first.events);
    if Named(middle) {
      var e := Decode(d.mapper, next.events);
      if e.Streaming? {
        AssembleConcat(got, d.chunks, e.chunks);
      }
    } else {
      assert !Named(after);
    }
  }

  // ---------------------------------------------------------------- single writes

  lemma DecodeOne(mapper: Mapper, event: Event)
    requires MapEvent(mapper, event).Emits? && !MapEvent(mapper, event).done
    ensures Decode(mapper, [event]) ==
            Streaming(MapEvent(mapper, event).mapper, MapEvent(mapper, event).chunks)
  {
    hide MapEvent;
    var next := MapEvent(mapper, event);
    assert [event][1..] == [];
    assert Decode(next.mapper, []) == Streaming(next.mapper, []);
    assert next.chunks + [] == next.chunks;
  }

  lemma AssembleDelta(message: Message, content: Option<string>, calls: seq<ToolCall>, finish: Option<string>)
    ensures Assemble(message, Delta(content, calls, finish)) == AddChoice(message, Choice(content, calls, finish))
  {
    hide AddChoice;
    var choice := Choice(content, calls, finish);
    assert AddChoices(AddChoice(message, choice), []) == AddChoice(message, choice);
    assert [choice][1..] == [];
    assert AddChoices(message, [choice]) == AddChoice(message, choice);
    assert Delta(content, calls, finish)[1..] == [];
  }

  lemma AddOneCall(message: Message, call: ToolCall)
    ensures AddChoice(message, Choice(None, [call], None)) == AddCall(message, call)
  {
    hide AddCall;
    assert [call][1..] == [];
    assert AddCalls(AddCall(message, call), []) == AddCall(message, call);
  }

  lemma TextDeltaCarried(writer: State, mapper: Mapper, sent: Message, got: Message, block: nat, text: string)
    requires InStep(writer, mapper, sent, got) && Named(sent)
    ensures Carried(mapper, got, Written(writer, [TextDelta(block, text)]), AddContent(sent, Some(text)))
  {
    DecodeOne(mapper, TextDelta(block, text));
    AssembleDelta(got, Some(text), [], None);
    hide Filed, Renumbered, Distinct, Named;
    assert AddCalls(AddContent(got, Some(text)), []) == AddContent(got, Some(text));
    assert Named(AddContent(sent, Some(text))) by { NamedTools(sent, AddContent(sent, Some(text))); }
  }

  lemma NamedTools(one: Message, two: Message)
    requires one.tools == two.tools
    ensures Named(one) == Named(two)
  {
  }

  lemma TextStartCarried(writer: State, mapper: Mapper, sent: Message, got: Message)
    requires InStep(writer, mapper, sent, got) && Named(sent)
    ensures Carried(
      mapper, got,
      Written(writer.(textOpen := true, textBlock := writer.nextBlock, nextBlock := writer.nextBlock + 1),
              [BlockStart(writer.nextBlock, TextBlock(""))]),
      sent)
  {
    DecodeOne(mapper, BlockStart(writer.nextBlock, TextBlock("")));
    AssembleDelta(got, Some(""), [], None);
    var open := writer.(textOpen := true, textBlock := writer.nextBlock, nextBlock := writer.nextBlock + 1);
    assert Filed(open, mapper, sent.tools);
    hide Filed, Renumbered, Distinct, Named;
    assert got.text + "" == got.text;
    assert AddContent(got, Some("")) == got;
    assert AddCalls(got, []) == got;
  }

  lemma ContentCarried(writer: State, mapper: Mapper, sent: Message, got: Message, content: Option<string>)
    requires InStep(writer, mapper, sent, got) && Named(sent)
    ensures Carried(mapper, got, WriteContent(writer, content), AddContent(sent, content))
  {
    hide InStep, Decode, Assemble;
    if content.None? {
      CarriedNothing(writer, mapper, sent, got);
    } else if writer.textOpen {
      TextDeltaCarried(writer, mapper, sent, got, writer.textBlock, content.value);
    } else {
      TextStartCarried(writer, mapper, sent, got);
      var open := writer.(textOpen := true, textBlock := writer.nextBlock, nextBlock := writer.nextBlock + 1);
      var first := Written(open, [BlockStart(writer.nextBlock, TextBlock(""))]);
      var d := Decode(mapper, first.events);
      TextDeltaCarried(open, d.mapper, sent, Assemble(got, d.chunks), writer.nextBlock, content.value);
      var next := Written(open, [TextDelta(writer.nextBlock, content.value)]);
      CarriedThen(mapper, got, first, next, sent, AddContent(sent, content));
      assert Then(first, next) == WriteContent(writer, content);
    }
  }

  lemma RenumberedPosition(sent: seq<Tool>, got: seq<Tool>, k: nat)
    requires Renumbered(sent, got) && k <= |sent|
    ensures Position(got, k) == k
  {
    var p := Position(got, k);
    assert k < |got| ==> got[k].index == k;
    assert p < |got| ==> got[p].index == p;
  }

  /** A call that introduces a tool, with its arguments still to come. */
  function Introduction(call: ToolCall): ToolCall {
    call.(arguments := "")
  }

  lemma IntroductionCarried(writer: State, mapper: Mapper, sent: Message, got: Message, call: ToolCall)
    requires InStep(writer, mapper, sent, got) && Named(sent)
    requires call.index !in writer.tools
    ensures Carried(mapper, got, WriteTool(writer, Introduction(call)), AddCall(sent, Introduction(call)))
  {
    NewToolPosition(writer, mapper, sent.tools, call.index);
    hide InStep, Carried, WriteTool, AddCall, Named;
    if call.id == "" || call.name == "" {
      UnnamedIsBroken(writer, mapper, sent, got, call);
    } else {
      NamedIsCarried(writer, mapper, sent, got, call);
    }
  }

  lemma UnnamedIsBroken(writer: State, mapper: Mapper, sent: Message, got: Message, call: ToolCall)
    requires Position(sent.tools, call.index) == |sent.tools| && call.index !in writer.tools
    requires call.id == "" || call.name == ""
    ensures Carried(mapper, got, WriteTool(writer, Introduction(call)), AddCall(sent, Introduction(call)))
  {
    hide InStep, Decode, Named, Position;
    var event := BlockStart(writer.nextBlock, ToolBlock(call.id, call.name));
    assert WriteTool(writer, Introduction(call)).events == [event];
    UnnamedLast(AddCall(sent, Introduction(call)));
    DecodeInvalid(mapper, event);
  }

  lemma NamedIsCarried(writer: State, mapper: Mapper, sent: Message, got: Message, call: ToolCall)
    requires InStep(writer, mapper, sent, got) && Named(sent)
    requires Position(sent.tools, call.index) == |sent.tools| && call.index !in writer.tools
    requires call.id != "" && call.name != ""
    ensures Carried(mapper, got, WriteTool(writer, Introduction(call)), AddCall(sent, Introduction(call)))
  {
    hide Named, Renumbered, Distinct, Decode, Filed, Position;
    var written := WriteTool(writer, Introduction(call));
    var after := AddCall(sent, Introduction(call));
    var event := BlockStart(writer.nextBlock, ToolBlock(call.id, call.name));
    assert written.events == [event];
    NamedLast(sent, after);
    DecodeOne(mapper, event);
    var index := mapper.nextToolIndex;
    var out := ToolCall(index, call.id, call.name, "");
    var next := Mapper(mapper.toolIndexByBlock[writer.nextBlock := index], index + 1);
    assert MapEvent(mapper, event) == Emits(next, Delta(None, [out], None), false);
    AssembleDelta(got, None, [out], None);
    AddOneCall(got, out);
    RenumberedPosition(sent.tools, got.tools, index);
    IntroductionFiled(writer, mapper, sent.tools, call);
    RenumberedSize(sent.tools, got.tools);
    IntroductionRenumbered(sent.tools, got.tools, call);
    hide MapEvent, Assemble, AddChoice;
    assert InStep(written.state, next, after, AddCall(got, out));
  }

  lemma RenumberedSize(sent: seq<Tool>, got: seq<Tool>)
    requires Renumbered(sent, got)
    ensures |got| == |sent|
  {
  }

  lemma NewToolPosition(writer: State, mapper: Mapper, sent: seq<Tool>, index: nat)
    requires Filed(writer, mapper, sent) && index !in writer.tools
    ensures Position(sent, index) == |sent|
  {
    var p := Position(sent, index);
  }

  lemma UnnamedLast(message: Message)
    requires |message.tools| > 0
    requires var last := message.tools[|message.tools| - 1]; last.id == "" || last.name == ""
    ensures !Named(message)
  {
  }

  lemma NamedLast(before: Message, after: Message)
    requires Named(before) && |after.tools| == |before.tools| + 1
    requires after.tools[..|before.tools|] == before.tools
    requires var last := after.tools[|before.tools|]; last.id != "" && last.name != ""
    ensures Named(after)
  {
    assert forall k :: 0 <= k < |before.tools| ==> after.tools[k] == before.tools[k];
  }

  lemma DecodeInvalid(mapper: Mapper, event: Event)
    requires MapEvent(mapper, event).Invalid?
    ensures Decode(mapper, [event]) == Broken
  {
    hide MapEvent;
  }

  lemma IntroductionRenumbered(sent: seq<Tool>, got: seq<Tool>, call: ToolCall)
    requires Distinct(sent) && Renumbered(sent, got)
    requires Position(sent, call.index) == |sent|
    ensures Distinct(sent + [Tool(call.index, call.id, call.name, "")])
    ensures Renumbered(sent + [Tool(call.index, call.id, call.name, "")],
                       got + [Tool(|sent|, call.id, call.name, "")])
  {
  }

  lemma {:induction false} PositionConcat(tools: seq<Tool>, tool: Tool, index: nat)
    ensures Position(tools + [tool], index) <= |tools|
            <==> Position(tools, index) < |tools| || tool.index == index
  {
    var p := Position(tools + [tool], index);
    var q := Position(tools, index);
    var all := tools + [tool];
    assert p < |tools| ==> all[p] == tools[p];
    assert q < |tools| ==> all[q] == tools[q];
    assert all[|tools|] == tool;
  }

  lemma IntroductionFiled(writer: State, mapper: Mapper, sent: seq<Tool>, call: ToolCall)
    requires Filed(writer, mapper, sent) && Distinct(sent)
    requires call.index !in writer.tools
    ensures Filed(WriteTool(writer, Introduction(call)).state,
                  Mapper(mapper.toolIndexByBlock[writer.nextBlock := |sent|], |sent| + 1),
                  sent + [Tool(call.index, call.id, call.name, "")])
  {
    var tool := Tool(call.index, call.id, call.name, "");
    var tools := writer.tools[call.index := writer.nextBlock];
    var next := WriteTool(writer, Introduction(call)).state;
    assert next.tools == tools;
    var after := sent + [tool];
    forall index | index in tools
      ensures Position(after, index) < |after|
    {
      PositionConcat(sent, tool, index);
    }
    var byBlock := mapper.toolIndexByBlock[writer.nextBlock := |sent|];
    forall k | 0 <= k < |after|
      ensures after[k].index in tools && tools[after[k].index] in byBlock && byBlock[tools[after[k].index]] == k
    {
      if k < |sent| {
        assert after[k] == sent[k];
        assert sent[k].index in writer.tools;
        assert writer.tools[sent[k].index] < writer.nextBlock;
      }
    }
  }

  lemma ArgumentsCarried(writer: State, mapper: Mapper, sent: Message, got: Message, call: ToolCall)
    requires InStep(writer, mapper, sent, got) && Named(sent)
    requires call.index in writer.tools
    ensures Carried(mapper, got, WriteTool(writer, call), AddCall(sent, call))
  {
    var k := Position(sent.tools, call.index);
    var tool := sent.tools[k];
    var after := AddCall(sent, call);
    assert after.tools == sent.tools[k := tool.(arguments := tool.arguments + call.arguments)];
    GrownInStep(writer, mapper, sent, got, k, call.arguments);
    if call.arguments == "" {
      assert tool.arguments + "" == tool.arguments;
      assert after == sent;
      assert WriteTool(writer, call).events == [];
    } else {
      var event := JsonDelta(writer.tools[call.index], call.arguments);
      assert WriteTool(writer, call).events == [event];
      DecodeOne(mapper, event);
      var out := ToolCall(k, "", "", call.arguments);
      AssembleDelta(got, None, [out], None);
      AddOneCall(got, out);
      RenumberedPosition(sent.tools, got.tools, k);
      hide Filed, Renumbered, Distinct, Decode, Named;
      assert AddCall(got, out) == Grown(got, k, call.arguments);
    }
  }

  /** The message with `more` appended to the arguments of tool k. */
  function Grown(message: Message, k: nat, more: string): Message
    requires k < |message.tools|
  {
    message.(tools := message.tools[k := message.tools[k].(arguments := message.tools[k].arguments + more)])
  }

  lemma GrownInStep(writer: State, mapper: Mapper, sent: Message, got: Message, k: nat, more: string)
    requires InStep(writer, mapper, sent, got) && Named(sent) && k < |sent.tools|
    ensures InStep(writer, mapper, Grown(sent, k, more), Grown(got, k, more)) && Named(Grown(sent, k, more))
  {
    var after := Grown(sent, k, more).tools;
    assert forall j :: 0 <= j < |after| ==> after[j].index == sent.tools[j].index;
    forall index | index in writer.tools
      ensures Position(after, index) < |after|
    {
      var p := Position(sent.tools, index);
      assert after[p].index == index;
    }
    assert Filed(writer, mapper, after);
  }

  lemma ToolCarried(writer: State, mapper: Mapper, sent: Message, got: Message, call: ToolCall)
    requires InStep(writer, mapper, sent, got) && Named(sent)
    ensures Carried(mapper, got, WriteTool(writer, call), AddCall(sent, call))
  {
    if call.index in writer.tools {
      ArgumentsCarried(writer, mapper, sent, got, call);
    } else {
      var intro := Introduction(call);
      IntroductionCarried(writer, mapper, sent, got, call);
      var first := WriteTool(writer, intro);
      var middle := AddCall(sent, intro);
      assert call.index in first.state.tools;
      var next := WriteTool(first.state, call);
      assert Then(first, next).events == WriteTool(writer, call).events;
      assert Then(first, next) == WriteTool(writer, call);
      IntroducedThenGrown(sent, call);
      CallExtends(middle, call);
      hide InStep, Decode, Assemble, WriteTool, AddCall;
      if Named(middle) {
        var d := Decode(mapper, first.events);
        ArgumentsCarried(first.state, d.mapper, middle, Assemble(got, d.chunks), call);
      }
      CarriedThen(mapper, got, first, next, middle, AddCall(sent, call));
    }
  }

  lemma IntroducedThenGrown(message: Message, call: ToolCall)
    requires Position(message.tools, call.index) == |message.tools|
    ensures AddCall(AddCall(message, Introduction(call)), call) == AddCall(message, call)
  {
    var middle := AddCall(message, Introduction(call)).tools;
    var tool := Tool(call.index, call.id, call.name, "");
    assert middle == message.tools + [tool];
    var p := Position(middle, call.index);
    PositionConcat(message.tools, tool, call.index);
    assert "" + call.arguments == call.arguments;
  }

  // ---------------------------------------------------------------- chunks

  lemma {:induction false} ToolsCarried(writer: State, mapper: Mapper, sent: Message, got: Message, calls: seq<ToolCall>)
    requires InStep(writer, mapper, sent, got) && Named(sent)
    ensures Carried(mapper, got, WriteTools(writer, calls), AddCalls(sent, calls))
    decreases |calls|
  {
    if calls == [] {
      CarriedNothing(writer, mapper, sent, got);
    } else {
      var first := WriteTool(writer, calls[0]);
      var middle := AddCall(sent, calls[0]);
      ToolCarried(writer, mapper, sent, got, calls[0]);
      CallsExtend(middle, calls[1..]);
      hide InStep, Decode, Assemble, WriteTool, AddCall, Named, Extends;
      var d := Decode(mapper, first.events);
      if Named(middle) {
        ToolsCarried(first.state, d.mapper, middle, Assemble(got, d.chunks), calls[1..]);
      }
      CarriedThen(mapper, got, first, WriteTools(first.state, calls[1..]), middle, AddCalls(middle, calls[1..]));
    }
  }

  lemma FinishCarried(mapper: Mapper, got: Message, written: Written, after: Message, finish: Option<string>)
    requires Carried(mapper, got, written, after)
    ensures Carried(
      mapper, got,
      Written(if finish.Some? then written.state.(finish := finish.value) else written.state, written.events),
      AddFinish(after, finish))
  {
    hide Decode, Assemble, Renumbered, Distinct, Position;
    NamedTools(after, AddFinish(after, finish));
  }

  lemma ChoiceCarried(writer: State, mapper: Mapper, sent: Message, got: Message, choice: Choice)
    requires InStep(writer, mapper, sent, got) && Named(sent)
    ensures Carried(mapper, got, WriteChoice(writer, choice), AddChoice(sent, choice))
  {
    var content := WriteContent(writer, choice.content);
    var middle := AddContent(sent, choice.content);
    ContentCarried(writer, mapper, sent, got, choice.content);
    var d := Decode(mapper, content.events);
    NamedTools(sent, middle);
    CallsExtend(middle, choice.toolCalls);
    hide InStep, Decode, Assemble, Named, Extends, WriteContent, WriteTools;
    var tools := WriteTools(content.state, choice.toolCalls);
    ToolsCarried(content.state, d.mapper, middle, Assemble(got, d.chunks), choice.toolCalls);
    var all := AddCalls(middle, choice.toolCalls);
    CarriedThen(mapper, got, content, tools, middle, all);
    FinishCarried(mapper, got, Then(content, tools), all, choice.finish);
  }

  lemma {:induction false} ChoicesCarried(
    writer: State, mapper: Mapper, sent: Message, got: Message, choices: seq<Choice>)
    requires InStep(writer, mapper, sent, got) && Named(sent)
    ensures Carried(mapper, got, WriteChoices(writer, choices), AddChoices(sent, choices))
    decreases |choices|
  {
    if choices == [] {
      CarriedNothing(writer, mapper, sent, got);
    } else {
      var first := WriteChoice(writer, choices[0]);
      var middle := AddChoice(sent, choices[0]);
      ChoiceCarried(writer, mapper, sent, got, choices[0]);
      ChoicesExtend(middle, choices[1..]);
      hide InStep, Decode, Assemble, WriteChoice, AddChoice, Named, Extends;
      var d := Decode(mapper, first.events);
      if Named(middle) {
        ChoicesCarried(first.state, d.mapper, middle, Assemble(got, d.chunks), choices[1..]);
      }
      CarriedThen(mapper, got, first, WriteChoices(first.state, choices[1..]), middle,
                  AddChoices(middle, choices[1..]));
    }
  }

  lemma StartCarried(writer: State, mapper: Mapper, sent: Message, got: Message)
    requires InStep(writer, mapper, sent, got) && Named(sent)
    ensures Carried(mapper, got, WriteStart(writer), sent)
  {
    if writer.started {
      CarriedNothing(writer, mapper, sent, got);
    } else {
      DecodeOne(mapper, MessageStart);
      AssembleDelta(got, None, [], None);
      assert AddCalls(got, []) == got;
    }
  }

  /** The chunk without the closing events it may trigger. */
  function WriteBody(writer: State, chunk: Chunk): Written {
    Then(WriteStart(writer), WriteChoices(WriteStart(writer).state, chunk.choices))
  }

  lemma BodyCarried(writer: State, mapper: Mapper, sent: Message, got: Message, chunk: Chunk)
    requires InStep(writer, mapper, sent, got) && Named(sent)
    ensures Carried(mapper, got, WriteBody(writer, chunk), AddChoices(sent, chunk.choices))
  {
    StartCarried(writer, mapper, sent, got);
    var start := WriteStart(writer);
    ChoicesExtend(sent, chunk.choices);
    hide InStep, Decode, Assemble, Named, Extends, WriteChoices, AddChoices, WriteStart;
    var d := Decode(mapper, start.events);
    ChoicesCarried(start.state, d.mapper, sent, Assemble(got, d.chunks), chunk.choices);
    CarriedThen(mapper, got, start, WriteChoices(start.state, chunk.choices), sent, AddChoices(sent, chunk.choices));
  }

  // ---------------------------------------------------------------- whole streams

  /** The chunks up to the first that leaves a finish reason: what the writer can still send. */
  function Live(message: Message, chunks: seq<Chunk>): seq<Chunk>
    decreases |chunks|
  {
    if chunks == [] then []
    else
      var next := AddChoices(message, chunks[0].choices);
      [chunks[0]] + (if Reason(next) != "" then [] else Live(next, chunks[1..]))
  }

  /** `got` is `sent` with tools renumbered and the finish reason taken through both vocabularies. */
  predicate Restores(sent: Message, got: Message) {
    && got.text == sent.text
    && Renumbered(sent.tools, got.tools)
    && got.finish == Some(FinishReason(StopReason(Reason(sent))))
  }

  /** Decoding ends, and restores `sent`, exactly when `sent` is named; otherwise it breaks off. */
  ghost predicate Restored(mapper: Mapper, got: Message, events: seq<Event>, sent: Message) {
    match Decode(mapper, events)
    case Finished(chunks) => Named(sent) && Restores(sent, Assemble(got, chunks))
    case Streaming(_, _) => false
    case Broken => !Named(sent)
  }

  lemma RestoredThenMore(mapper: Mapper, got: Message, events: seq<Event>, more: seq<Event>, sent: Message)
    requires Restored(mapper, got, events, sent)
    ensures Restored(mapper, got, events + more, sent)
  {
    hide Restores, Named, Decode;
    DecodeConcat(mapper, events, more);
  }

  lemma CarriedThenRestored(mapper: Mapper, got: Message, first: Written, events: seq<Event>, middle: Message, sent: Message)
    requires Carried(mapper, got, first, middle) && Extends(middle, sent)
    requires Named(middle) ==>
               var d := Decode(mapper, first.events);
               d.Streaming? && Restored(d.mapper, Assemble(got, d.chunks), events, sent)
    ensures Restored(mapper, got, first.events + events, sent)
  {
    hide InStep, Decode, Restores;
    DecodeConcat(mapper, first.events, events);
    var d := Decode(mapper, first.events);
    if Named(middle) {
      var e := Decode(d.mapper, events);
      if e.Finished? {
        AssembleConcat(got, d.chunks, e.chunks);
      }
    } else {
      assert !Named(sent);
    }
  }

  lemma {:induction false} StopsDecode(mapper: Mapper, tools: map<nat, nat>)
    ensures Decode(mapper, Stops(tools)) == Streaming(mapper, [])
    decreases |tools|
  {
    if tools != map[] {
      var index := Least(tools.Keys);
      var first := [BlockStop(tools[index])];
      StopsDecode(mapper, tools - {index});
      DecodeOne(mapper, BlockStop(tools[index]));
      DecodeConcat(mapper, first, Stops(tools - {index}));
    }
  }

  lemma ClosingDecode(mapper: Mapper, reason: string)
    ensures Decode(mapper, [MessageDelta(reason), MessageStop]) ==
            Finished(Delta(None, [], Some(FinishReason(reason))))
  {
    var events := [MessageDelta(reason), MessageStop];
    assert events[1..] == [MessageStop];
    assert Decode(mapper, [MessageStop]) == Finished([]);
    var out := Delta(None, [], Some(FinishReason(reason)));
    assert out + [] == out;
  }

  lemma EndDecodes(writer: State, mapper: Mapper)
    requires !writer.completed
    ensures Decode(mapper, WriteEnd(writer).events) ==
            Finished(Delta(None, [], Some(FinishReason(StopReason(writer.finish)))))
  {
    var text := if writer.textOpen then [BlockStop(writer.textBlock)] else [];
    var stops := Stops(writer.tools);
    var reason := StopReason(writer.finish);
    if writer.textOpen {
      DecodeOne(mapper, BlockStop(writer.textBlock));
    }
    assert Decode(mapper, text) == Streaming(mapper, []);
    hide Decode, FinishReason, StopReason, Stops;
    StopsDecode(mapper, writer.tools);
    ClosingDecode(mapper, reason);
    DecodeConcat(mapper, text, stops);
    DecodeConcat(mapper, text + stops, [MessageDelta(reason), MessageStop]);
  }

  lemma EndRestores(writer: State, mapper: Mapper, sent: Message, got: Message)
    requires InStep(writer, mapper, sent, got) && Named(sent) && !writer.completed
    ensures Restored(mapper, got, WriteEnd(writer).events, sent)
  {
    var reason := FinishReason(StopReason(writer.finish));
    EndDecodes(writer, mapper);
    AssembleDelta(got, None, [], Some(reason));
    assert AddCalls(got, []) == got;
    hide Decode, Named, Renumbered, Distinct, Filed, WriteEnd, FinishReason, StopReason;
  }

  /** Everything still written from `writer` on, the end marker included. */
  ghost function EncodeFrom(writer: State, chunks: seq<Chunk>): seq<Event> {
    WriteChunks(writer, chunks).events + WriteEnd(WriteChunks(writer, chunks).state).events
  }

  lemma EncodeFromFirst(writer: State, chunks: seq<Chunk>)
    requires chunks != []
    ensures var body := WriteBody(writer, chunks[0]);
            var first := WriteChunk(writer, chunks[0]);
            EncodeFrom(writer, chunks) ==
            if body.state.finish != "" then
              body.events + WriteEnd(body.state).events + EncodeFrom(first.state, chunks[1..])
            else body.events + EncodeFrom(body.state, chunks[1..])
  {
    hide WriteEnd, WriteStart, WriteChoices;
    var first := WriteChunk(writer, chunks[0]);
    var rest := WriteChunks(first.state, chunks[1..]);
    Regroup(first.events, rest.events, WriteEnd(rest.state).events);
  }

  lemma BodyNotCompleted(writer: State, chunk: Chunk)
    ensures WriteBody(writer, chunk).state.completed == writer.completed
  {
    ChoicesKeepCompleted(WriteStart(writer).state, chunk.choices);
  }

  lemma {:induction false} ToolsKeepCompleted(writer: State, calls: seq<ToolCall>)
    ensures WriteTools(writer, calls).state.completed == writer.completed
    decreases |calls|
  {
    if calls != [] {
      ToolsKeepCompleted(WriteTool(writer, calls[0]).state, calls[1..]);
    }
  }

  lemma {:induction false} ChoicesKeepCompleted(writer: State, choices: seq<Choice>)
    ensures WriteChoices(writer, choices).state.completed == writer.completed
    decreases |choices|
  {
    if choices != [] {
      ToolsKeepCompleted(WriteContent(writer, choices[0].content).state, choices[0].toolCalls);
      ChoicesKeepCompleted(WriteChoice(writer, choices[0]).state, choices[1..]);
    }
  }

  lemma {:induction false} StreamRestored(writer: State, mapper: Mapper, sent: Message, got: Message, chunks: seq<Chunk>)
    requires InStep(writer, mapper, sent, got) && Named(sent)
    requires !writer.completed && writer.finish == ""
    ensures Restored(mapper, got, EncodeFrom(writer, chunks), Assemble(sent, Live(sent, chunks)))
    decreases |chunks|
  {
    if chunks == [] {
      EndRestores(writer, mapper, sent, got);
      assert EncodeFrom(writer, []) == WriteEnd(writer).events;
    } else {
      var body := WriteBody(writer, chunks[0]);
      var middle := AddChoices(sent, chunks[0].choices);
      EncodeFromFirst(writer, chunks);
      BodyCarried(writer, mapper, sent, got, chunks[0]);
      BodyFinish(writer, sent, chunks[0]);
      BodyNotCompleted(writer, chunks[0]);
      AssembleFirst(sent, chunks);
      var d := Decode(mapper, body.events);
      hide Decode, Named, InStep, WriteBody, WriteEnd, Restores, AddChoices, EncodeFrom, Live, Assemble;
      if Reason(middle) != "" {
        ExtendsItself(middle);
        if Named(middle) {
          assert InStep(body.state, d.mapper, middle, Assemble(got, d.chunks));
          EndRestores(body.state, d.mapper, middle, Assemble(got, d.chunks));
        }
        CarriedThenRestored(mapper, got, body, WriteEnd(body.state).events, middle, middle);
        var more := EncodeFrom(WriteChunk(writer, chunks[0]).state, chunks[1..]);
        RestoredThenMore(mapper, got, body.events + WriteEnd(body.state).events, more, middle);
      } else {
        var after := Assemble(middle, Live(middle, chunks[1..]));
        AssembleExtends(middle, Live(middle, chunks[1..]));
        if Named(middle) {
          StreamRestored(body.state, d.mapper, middle, Assemble(got, d.chunks), chunks[1..]);
        }
        CarriedThenRestored(mapper, got, body, EncodeFrom(body.state, chunks[1..]), middle, after);
      }
    }
  }

  lemma ExtendsItself(message: Message)
    ensures Extends(message, message)
  {
  }

  lemma AssembleFirst(sent: Message, chunks: seq<Chunk>)
    requires chunks != []
    ensures var middle := AddChoices(sent, chunks[0].choices);
            Assemble(sent, Live(sent, chunks)) ==
            if Reason(middle) != "" then middle else Assemble(middle, Live(middle, chunks[1..]))
  {
    hide AddChoices;
    var middle := AddChoices(sent, chunks[0].choices);
    var rest := if Reason(middle) != "" then [] else Live(middle, chunks[1..]);
    assert ([chunks[0]] + rest)[1..] == rest;
  }

  /** The writer's finish reason is the one in the message it has written. */
  lemma BodyFinish(writer: State, sent: Message, chunk: Chunk)
    requires writer.finish == Reason(sent)
    ensures WriteBody(writer, chunk).state.finish == Reason(AddChoices(sent, chunk.choices))
  {
    ChoicesFinish(WriteStart(writer).state, sent, chunk.choices);
  }

  lemma {:induction false} ToolsKeepFinish(writer: State, message: Message, calls: seq<ToolCall>)
    ensures WriteTools(writer, calls).state.finish == writer.finish
    ensures AddCalls(message, calls).finish == message.finish
    decreases |calls|
  {
    if calls != [] {
      ToolsKeepFinish(WriteTool(writer, calls[0]).state, AddCall(message, calls[0]), calls[1..]);
    }
  }

  lemma {:induction false} ChoicesFinish(writer: State, sent: Message, choices: seq<Choice>)
    requires writer.finish == Reason(sent)
    ensures WriteChoices(writer, choices).state.finish == Reason(AddChoices(sent, choices))
    decreases |choices|
  {
    if choices != [] {
      var choice := choices[0];
      ToolsKeepFinish(WriteContent(writer, choice.content).state, AddContent(sent, choice.content), choice.toolCalls);
      hide WriteTools, AddCalls;
      ChoicesFinish(WriteChoice(writer, choice).state, AddChoice(sent, choice), choices[1..]);
    }
  }

  /**
   For every chunk stream whatever: the written events decode to a finished stream exactly when
   the tools sent before the finish are named, and then the client assembles the same message.
   */
  lemma RoundTrip(chunks: seq<Chunk>)
    ensures var sent := Assemble(NOTHING, Live(NOTHING, chunks));
            match Decode(FRESH, Encode(chunks))
            case Finished(out) => Named(sent) && Restores(sent, Assemble(NOTHING, out))
            case Streaming(_, _) => false
            case Broken => !Named(sent)
  {
    StreamRestored(INITIAL, FRESH, NOTHING, NOTHING, chunks);
  }

  /** The two finish vocabularies agree on exactly these four reasons. */
  lemma FinishRoundTrip(reason: string)
    ensures FinishReason(StopReason(reason)) == reason
            <==> reason in {"stop", "length", "tool_calls", "content_filter"}
  {
    assert "function_call" != "tool_calls";
  }

  // ---------------------------------------------------------------- after the finish

  /** A call that writes nothing: its tool is known and it brings no arguments. */
  predicate SilentCall(message: Message, call: ToolCall) {
    Position(message.tools, call.index) < |message.tools| && call.arguments == ""
  }

  predicate SilentChoice(message: Message, choice: Choice) {
    choice.content.None? && forall k :: 0 <= k < |choice.toolCalls| ==> SilentCall(message, choice.toolCalls[k])
  }

  predicate SilentChunk(message: Message, chunk: Chunk) {
    forall k :: 0 <= k < |chunk.choices| ==> SilentChoice(message, chunk.choices[k])
  }

  /** Chunks that add neither text nor tools to a message (usage reports, for one). */
  predicate Silent(message: Message, chunks: seq<Chunk>) {
    forall k :: 0 <= k < |chunks| ==> SilentChunk(message, chunks[k])
  }

  predicate SameContent(one: Message, two: Message) {
    one.text == two.text && one.tools == two.tools
  }

  lemma SilentCallKeeps(message: Message, call: ToolCall)
    requires SilentCall(message, call)
    ensures AddCall(message, call) == message
  {
    var tool := message.tools[Position(message.tools, call.index)];
    assert tool.arguments + "" == tool.arguments;
  }

  lemma {:induction false} SilentCallsKeep(message: Message, calls: seq<ToolCall>)
    requires forall k :: 0 <= k < |calls| ==> SilentCall(message, calls[k])
    ensures AddCalls(message, calls) == message
    decreases |calls|
  {
    if calls != [] {
      SilentCallKeeps(message, calls[0]);
      SilentCallsKeep(message, calls[1..]);
    }
  }

  lemma {:induction false} SilentChoicesKeep(message: Message, choices: seq<Choice>)
    requires forall k :: 0 <= k < |choices| ==> SilentChoice(message, choices[k])
    ensures SameContent(message, AddChoices(message, choices))
    decreases |choices|
  {
    if choices != [] {
      SilentCallsKeep(message, choices[0].toolCalls);
      var next := AddChoice(message, choices[0]);
      assert next.tools == message.tools;
      hide AddChoice, AddCalls, Position;
      SilentChoicesKeep(next, choices[1..]);
    }
  }

  lemma {:induction false} SilentKeeps(message: Message, chunks: seq<Chunk>)
    requires Silent(message, chunks)
    ensures SameContent(message, Assemble(message, chunks))
    decreases |chunks|
  {
    if chunks != [] {
      SilentChoicesKeep(message, chunks[0].choices);
      hide AddChoices, Position;
      SilentKeeps(AddChoices(message, chunks[0].choices), chunks[1..]);
    }
  }

  lemma {:induction false} LiveIsPrefix(message: Message, chunks: seq<Chunk>)
    ensures Live(message, chunks) <= chunks
    decreases |chunks|
  {
    if chunks != [] {
      LiveIsPrefix(AddChoices(message, chunks[0].choices), chunks[1..]);
    }
  }

  /** The chunks that follow the one that finished the stream. */
  function Tail(chunks: seq<Chunk>): seq<Chunk> {
    LiveIsPrefix(NOTHING, chunks);
    chunks[|Live(NOTHING, chunks)|..]
  }

  /** With nothing to say after the finish, the whole of the sent text and tools arrives. */
  lemma RoundTripOfAll(chunks: seq<Chunk>)
    requires Silent(Assemble(NOTHING, Live(NOTHING, chunks)), Tail(chunks))
    requires Named(Assemble(NOTHING, chunks))
    ensures Decode(FRESH, Encode(chunks)).Finished?
    ensures var got := Assemble(NOTHING, Decode(FRESH, Encode(chunks)).chunks);
            var sent := Assemble(NOTHING, chunks);
            got.text == sent.text && Renumbered(sent.tools, got.tools)
  {
    RoundTrip(chunks);
    var live := Live(NOTHING, chunks);
    LiveIsPrefix(NOTHING, chunks);
    hide Decode, Encode, Live, Assemble, Silent, Named, Renumbered;
    assert live + Tail(chunks) == chunks;
    AssembleConcat(NOTHING, live, Tail(chunks));
    SilentKeeps(Assemble(NOTHING, live), Tail(chunks));
    NamedTools(Assemble(NOTHING, live), Assemble(NOTHING, chunks));
  }
}
