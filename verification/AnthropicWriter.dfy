/**
 The writer that turns OpenAI chat chunks into Anthropic stream events
 (internal/httpapi/anthropic_messages.go).
 */
module AnthropicWriter {
  import opened Wrappers

  datatype ToolCall = ToolCall(index: nat, id: string, name: string, arguments: string)

  datatype Choice = Choice(content: Option<string>, toolCalls: seq<ToolCall>, finish: Option<string>)

  /** A decoded chat completion chunk, without its identifier, model and token counts. */
  datatype Chunk = Chunk(choices: seq<Choice>)

  datatype Block = TextBlock(text: string) | ToolBlock(id: string, name: string)

  /**
   Anthropic stream events. The writer sends the first seven kinds; a provider may also send
   pings, a bare end marker, and events that are malformed, of unknown type or report an error.
   */
  datatype Event =
    | MessageStart
    | BlockStart(index: nat, block: Block)
    | TextDelta(index: nat, text: string)
    | JsonDelta(index: nat, partial: string)
    | BlockStop(index: nat)
    | MessageDelta(stopReason: string)
    | MessageStop
    | Ping
    | EndMarker
    | Faulty

  function StopReason(reason: string): string {
    if reason == "length" then "max_tokens"
    else if reason == "tool_calls" || reason == "function_call" then "tool_use"
    else if reason == "stop" then "end_turn"
    else if reason == "content_filter" then "refusal"
    else reason
  }

  /** The stream state; `tools` maps an OpenAI tool index to the block that carries it. */
  datatype State = State(
    started: bool,
    textOpen: bool,
    textBlock: nat,
    nextBlock: nat,
    tools: map<nat, nat>,
    finish: string,
    completed: bool)

  const INITIAL := State(false, false, 0, 0, map[], "", false)

  /** A state together with the events written on the way to it. */
  datatype Written = Written(state: State, events: seq<Event>)

  function Then(written: Written, next: Written): Written {
    Written(next.state, written.events + next.events)
  }

  function WriteText(state: State, text: string): Written {
    if state.textOpen then Written(state, [TextDelta(state.textBlock, text)])
    else
      Written(
        state.(textOpen := true, textBlock := state.nextBlock, nextBlock := state.nextBlock + 1),
        [BlockStart(state.nextBlock, TextBlock("")), TextDelta(state.nextBlock, text)])
  }

  function WriteContent(state: State, content: Option<string>): Written {
    match content
    case None => Written(state, [])
    case Some(text) => WriteText(state, text)
  }

  function WriteTool(state: State, call: ToolCall): Written {
    var known := call.index in state.tools;
    var block := if known then state.tools[call.index] else state.nextBlock;
    Written(
      if known then state
      else state.(nextBlock := state.nextBlock + 1, tools := state.tools[call.index := block]),
      (if known then [] else [BlockStart(block, ToolBlock(call.id, call.name))]) +
      (if call.arguments == "" then [] else [JsonDelta(block, call.arguments)]))
  }

  function WriteTools(state: State, calls: seq<ToolCall>): Written
    decreases |calls|
  {
    if calls == [] then Written(state, [])
    else
      var first := WriteTool(state, calls[0]);
      Then(first, WriteTools(first.state, calls[1..]))
  }

  function WriteChoice(state: State, choice: Choice): Written {
    var content := WriteContent(state, choice.content);
    var tools := WriteTools(content.state, choice.toolCalls);
    Written(
      if choice.finish.Some? then tools.state.(finish := choice.finish.value) else tools.state,
      content.events + tools.events)
  }

  function WriteChoices(state: State, choices: seq<Choice>): Written
    decreases |choices|
  {
    if choices == [] then Written(state, [])
    else
      var first := WriteChoice(state, choices[0]);
      Then(first, WriteChoices(first.state, choices[1..]))
  }

  /** Closing events for the tools, in the order of their OpenAI index. */
  ghost function Stops(tools: map<nat, nat>): seq<Event> {
    if tools == map[] then []
    else
      var index := Least(tools.Keys);
      [BlockStop(tools[index])] + Stops(tools - {index})
  }

  predicate IsLeast(least: nat, indices: set<nat>) {
    least in indices && forall index :: index in indices ==> least <= index
  }

  ghost function Least(indices: set<nat>): (least: nat)
    requires indices != {}
    ensures IsLeast(least, indices)
  {
    LeastExists(indices);
    var least :| IsLeast(least, indices);
    least
  }

  lemma LeastExists(indices: set<nat>)
    requires indices != {}
    ensures exists least :: IsLeast(least, indices)
  {
    var some :| some in indices;
    LeastBelow(indices, some);
  }

  lemma {:induction false} LeastBelow(indices: set<nat>, some: nat)
    requires some in indices
    ensures exists least :: IsLeast(least, indices)
    decreases some
  {
    if smaller: nat :| smaller in indices && smaller < some {
      LeastBelow(indices, smaller);
    } else {
      assert IsLeast(some, indices);
    }
  }

  ghost function WriteEnd(state: State): Written {
    if state.completed then Written(state, [])
    else
      Written(
        state.(completed := true),
        (if state.textOpen then [BlockStop(state.textBlock)] else []) + Stops(state.tools) +
        [MessageDelta(StopReason(state.finish)), MessageStop])
  }

  function WriteStart(state: State): Written {
    Written(state.(started := true), if state.started then [] else [MessageStart])
  }

  ghost function WriteChunk(state: State, chunk: Chunk): Written {
    var started := WriteStart(state);
    var body := Then(started, WriteChoices(started.state, chunk.choices));
    if body.state.finish != "" then Then(body, WriteEnd(body.state)) else body
  }

  ghost function WriteChunks(state: State, chunks: seq<Chunk>): Written
    decreases |chunks|
  {
    if chunks == [] then Written(state, [])
    else
      var first := WriteChunk(state, chunks[0]);
      Then(first, WriteChunks(first.state, chunks[1..]))
  }

  /** The whole stream: every chunk, then the end marker. */
  ghost function Encode(chunks: seq<Chunk>): seq<Event> {
    var body := WriteChunks(INITIAL, chunks);
    body.events + WriteEnd(body.state).events
  }

  lemma Regroup(one: seq<Event>, two: seq<Event>, three: seq<Event>)
    ensures one + two + three == one + (two + three)
  {
  }

  /** The writer object: one per response, fed with chunks as they arrive. */
  class StreamWriter {
    var started: bool
    var textOpen: bool
    var textBlock: nat
    var nextBlock: nat
    var tools: map<nat, nat>
    var finish: string
    var completed: bool
    var events: seq<Event>

    function Now(): State
      reads this
    {
      State(started, textOpen, textBlock, nextBlock, tools, finish, completed)
    }

    ghost predicate Wrote(before: State, sofar: seq<Event>, written: Written)
      reads this
    {
      Now() == written.state && events == sofar + written.events
    }

    constructor ()
      ensures Now() == INITIAL && events == []
    {
      started, textOpen, textBlock, nextBlock := false, false, 0, 0;
      tools, finish, completed, events := map[], "", false, [];
    }

    method OpenTextBlock()
      modifies this
      ensures Now() == if old(textOpen) then old(Now())
                       else old(Now()).(textOpen := true, textBlock := old(nextBlock), nextBlock := old(nextBlock) + 1)
      ensures events == old(events) + (if old(textOpen) then [] else [BlockStart(old(nextBlock), TextBlock(""))])
    {
      if textOpen {
        return;
      }
      textOpen, textBlock, nextBlock := true, nextBlock, nextBlock + 1;
      events := events + [BlockStart(textBlock, TextBlock(""))];
    }

    method ToolDelta(call: ToolCall)
      modifies this
      ensures Wrote(old(Now()), old(events), WriteTool(old(Now()), call))
    {
      if call.index !in tools {
        tools, nextBlock := tools[call.index := nextBlock], nextBlock + 1;
        events := events + [BlockStart(tools[call.index], ToolBlock(call.id, call.name))];
      }
      if call.arguments == "" {
        return;
      }
      events := events + [JsonDelta(tools[call.index], call.arguments)];
    }

    method Complete()
      modifies this
      ensures Wrote(old(Now()), old(events), WriteEnd(old(Now())))
    {
      if completed {
        return;
      }
      completed := true;
      if textOpen {
        events := events + [BlockStop(textBlock)];
      }
      CloseTools();
      events := events + [MessageDelta(StopReason(finish))];
      events := events + [MessageStop];
    }

    method CloseTools()
      modifies this`events
      ensures events == old(events) + Stops(tools)
    {
      var left := tools;
      while left != map[]
        invariant events + Stops(left) == old(events) + Stops(tools)
        decreases |left|
      {
        LeastExists(left.Keys);
        var index :| index in left && IsLeast(index, left.Keys);
        assert index == Least(left.Keys);
        Regroup(events, [BlockStop(left[index])], Stops(left - {index}));
        events := events + [BlockStop(left[index])];
        left := left - {index};
      }
    }

    method WriteOneChoice(choice: Choice)
      modifies this
      ensures Wrote(old(Now()), old(events), WriteChoice(old(Now()), choice))
    {
      hide WriteTool;
      if choice.content.Some? {
        OpenTextBlock();
        events := events + [TextDelta(textBlock, choice.content.value)];
      }
      ghost var content := WriteContent(old(Now()), choice.content);
      assert Wrote(old(Now()), old(events), content);
      var i := 0;
      while i < |choice.toolCalls|
        invariant 0 <= i <= |choice.toolCalls|
        invariant var rest := WriteTools(Now(), choice.toolCalls[i..]);
                  var whole := WriteTools(content.state, choice.toolCalls);
                  rest.state == whole.state &&
                  events + rest.events == old(events) + (content.events + whole.events)
      {
        assert choice.toolCalls[i..][1..] == choice.toolCalls[i + 1..];
        ghost var before := events;
        ghost var first := WriteTool(Now(), choice.toolCalls[i]);
        ToolDelta(choice.toolCalls[i]);
        i := i + 1;
        Regroup(before, first.events, WriteTools(first.state, choice.toolCalls[i..]).events);
      }
      assert choice.toolCalls[i..] == [];
      if choice.finish.Some? {
        finish := choice.finish.value;
      }
      assert events == old(events) + (content.events + WriteTools(content.state, choice.toolCalls).events);
    }

    method Write(chunk: Chunk)
      modifies this
      ensures Wrote(old(Now()), old(events), WriteChunk(old(Now()), chunk))
    {
      hide WriteChoice, WriteEnd;
      if !started {
        started := true;
        events := events + [MessageStart];
      }
      ghost var start := WriteStart(old(Now()));
      var i := 0;
      while i < |chunk.choices|
        invariant 0 <= i <= |chunk.choices|
        invariant var rest := WriteChoices(Now(), chunk.choices[i..]);
                  var whole := WriteChoices(start.state, chunk.choices);
                  rest.state == whole.state &&
                  events + rest.events == old(events) + (start.events + whole.events)
      {
        assert chunk.choices[i..][1..] == chunk.choices[i + 1..];
        ghost var before := events;
        ghost var first := WriteChoice(Now(), chunk.choices[i]);
        WriteOneChoice(chunk.choices[i]);
        i := i + 1;
        Regroup(before, first.events, WriteChoices(first.state, chunk.choices[i..]).events);
      }
      assert chunk.choices[i..] == [];
      ghost var body := Then(start, WriteChoices(start.state, chunk.choices));
      assert Wrote(old(Now()), old(events), body);
      if finish != "" {
        Complete();
        assert events == old(events) + (body.events + WriteEnd(body.state).events);
      }
    }
  }
}
