/**
 The mapper that turns Anthropic stream events back into OpenAI chat chunks
 (internal/provider/anthropic.go), and what a client assembles from a chunk stream.
 */
module AnthropicMapper {
  import opened Wrappers
  import opened AnthropicWriter

  function FinishReason(reason: string): string {
    if reason == "max_tokens" then "length"
    else if reason == "tool_use" then "tool_calls"
    else if reason == "refusal" then "content_filter"
    else "stop"
  }

  datatype Mapper = Mapper(toolIndexByBlock: map<nat, nat>, nextToolIndex: nat)

  const FRESH := Mapper(map[], 0)

  datatype Mapped = Emits(mapper: Mapper, chunks: seq<Chunk>, done: bool) | Invalid

  function Delta(content: Option<string>, calls: seq<ToolCall>, finish: Option<string>): seq<Chunk> {
    [Chunk([Choice(content, calls, finish)])]
  }

  function MapEvent(mapper: Mapper, event: Event): Mapped {
    match event
    case MessageStart => Emits(mapper, Delta(None, [], None), false)
    case BlockStart(_, TextBlock(text)) => Emits(mapper, Delta(Some(text), [], None), false)
    case BlockStart(block, ToolBlock(id, name)) =>
      if id == "" || name == "" then Invalid
      else
        var index := mapper.nextToolIndex;
        Emits(Mapper(mapper.toolIndexByBlock[block := index], index + 1),
              Delta(None, [ToolCall(index, id, name, "")], None), false)
    case TextDelta(_, text) => Emits(mapper, Delta(Some(text), [], None), false)
    case JsonDelta(block, partial) =>
      if block !in mapper.toolIndexByBlock then Invalid
      else Emits(mapper, Delta(None, [ToolCall(mapper.toolIndexByBlock[block], "", "", partial)], None), false)
    case BlockStop(_) => Emits(mapper, [], false)
    case MessageDelta(reason) => Emits(mapper, Delta(None, [], Some(FinishReason(reason))), false)
    case MessageStop | EndMarker => Emits(mapper, [], true)
    case Ping => Emits(mapper, [], false)
    case Faulty => Invalid
  }

  /** The mapper object; its fields are what the closure in the source captures. */
  class StreamMapper {
    var toolIndexByBlock: map<nat, nat>
    var nextToolIndex: nat

    constructor ()
      ensures Mapper(toolIndexByBlock, nextToolIndex) == FRESH
    {
      toolIndexByBlock, nextToolIndex := map[], 0;
    }

    method Map(event: Event) returns (result: Result<(seq<Chunk>, bool), ()>)
      modifies this
      ensures match MapEvent(old(Mapper(toolIndexByBlock, nextToolIndex)), event)
              case Emits(mapper, chunks, done) =>
                result == Ok((chunks, done)) && Mapper(toolIndexByBlock, nextToolIndex) == mapper
              case Invalid =>
                result == Err(()) &&
                Mapper(toolIndexByBlock, nextToolIndex) == old(Mapper(toolIndexByBlock, nextToolIndex))
    {
      match event
      case MessageStart => result := Ok((Delta(None, [], None), false));
      case BlockStart(_, TextBlock(text)) => result := Ok((Delta(Some(text), [], None), false));
      case BlockStart(block, ToolBlock(id, name)) =>
        if id == "" || name == "" {
          return Err(());
        }
        toolIndexByBlock := toolIndexByBlock[block := nextToolIndex];
        var index := nextToolIndex;
        nextToolIndex := nextToolIndex + 1;
        result := Ok((Delta(None, [ToolCall(index, id, name, "")], None), false));
      case TextDelta(_, text) => result := Ok((Delta(Some(text), [], None), false));
      case JsonDelta(block, partial) =>
        if block !in toolIndexByBlock {
          return Err(());
        }
        result := Ok((Delta(None, [ToolCall(toolIndexByBlock[block], "", "", partial)], None), false));
      case BlockStop(_) => result := Ok(([], false));
      case MessageDelta(reason) => result := Ok((Delta(None, [], Some(FinishReason(reason))), false));
      case MessageStop => result := Ok(([], true));
      case EndMarker => result := Ok(([], true));
      case Ping => result := Ok(([], false));
      case Faulty => result := Err(());
    }
  }

  /** Mapping a stream: still open, ended by its last event, or broken off by an invalid one. */
  datatype Decoded = Streaming(mapper: Mapper, chunks: seq<Chunk>) | Finished(chunks: seq<Chunk>) | Broken

  function Prepend(chunks: seq<Chunk>, rest: Decoded): Decoded {
    match rest
    case Streaming(mapper, more) => Streaming(mapper, chunks + more)
    case Finished(more) => Finished(chunks + more)
    case Broken => Broken
  }

  function Decode(mapper: Mapper, events: seq<Event>): Decoded
    decreases |events|
  {
    if events == [] then Streaming(mapper, [])
    else
      match MapEvent(mapper, events[0])
      case Invalid => Broken
      case Emits(next, chunks, done) =>
        if done then Finished(chunks) else Prepend(chunks, Decode(next, events[1..]))
  }

  function Onward(first: Decoded, events: seq<Event>): Decoded {
    if first.Streaming? then Prepend(first.chunks, Decode(first.mapper, events)) else first
  }

  lemma {:induction false} DecodeConcat(mapper: Mapper, one: seq<Event>, two: seq<Event>)
    ensures Decode(mapper, one + two) == Onward(Decode(mapper, one), two)
    decreases |one|
  {
    if one == [] {
      assert one + two == two;
    } else {
      hide MapEvent;
      assert (one + two)[1..] == one[1..] + two;
      match MapEvent(mapper, one[0])
      case Invalid =>
      case Emits(next, chunks, done) =>
        DecodeConcat(next, one[1..], two);
        var rest := Decode(next, one[1..]);
        if rest.Streaming? {
          PrependTwice(chunks, rest.chunks, Decode(rest.mapper, two));
        }
    }
  }

  lemma PrependTwice(one: seq<Chunk>, two: seq<Chunk>, rest: Decoded)
    ensures Prepend(one, Prepend(two, rest)) == Prepend(one + two, rest)
  {
    if !rest.Broken? {
      assert one + (two + rest.chunks) == one + two + rest.chunks;
    }
  }

  // ---------------------------------------------------------------- what a client assembles

  datatype Tool = Tool(index: nat, id: string, name: string, arguments: string)

  /** Text, tools in order of first appearance, and the last finish reason. */
  datatype Message = Message(text: string, tools: seq<Tool>, finish: Option<string>)

  const NOTHING := Message("", [], None)

  function Position(tools: seq<Tool>, index: nat): (p: nat)
    ensures p <= |tools|
    ensures p < |tools| ==> tools[p].index == index
    ensures forall k :: 0 <= k < p ==> tools[k].index != index
  {
    if tools == [] || tools[0].index == index then 0 else 1 + Position(tools[1..], index)
  }

  function AddContent(message: Message, content: Option<string>): Message {
    if content.Some? then message.(text := message.text + content.value) else message
  }

  /** A tool takes its id and name from its first delta and its arguments from all of them. */
  function AddCall(message: Message, call: ToolCall): Message {
    var p := Position(message.tools, call.index);
    if p < |message.tools| then
      var tool := message.tools[p];
      message.(tools := message.tools[p := tool.(arguments := tool.arguments + call.arguments)])
    else message.(tools := message.tools + [Tool(call.index, call.id, call.name, call.arguments)])
  }

  function AddCalls(message: Message, calls: seq<ToolCall>): Message
    decreases |calls|
  {
    if calls == [] then message else AddCalls(AddCall(message, calls[0]), calls[1..])
  }

  function AddFinish(message: Message, finish: Option<string>): Message {
    if finish.Some? then message.(finish := finish) else message
  }

  function AddChoice(message: Message, choice: Choice): Message {
    AddFinish(AddCalls(AddContent(message, choice.content), choice.toolCalls), choice.finish)
  }

  function AddChoices(message: Message, choices: seq<Choice>): Message
    decreases |choices|
  {
    if choices == [] then message else AddChoices(AddChoice(message, choices[0]), choices[1..])
  }

  function Assemble(message: Message, chunks: seq<Chunk>): Message
    decreases |chunks|
  {
    if chunks == [] then message else Assemble(AddChoices(message, chunks[0].choices), chunks[1..])
  }

  lemma {:induction false} AssembleConcat(message: Message, one: seq<Chunk>, two: seq<Chunk>)
    ensures Assemble(message, one + two) == Assemble(Assemble(message, one), two)
    decreases |one|
  {
    if one == [] {
      assert one + two == two;
    } else {
      assert (one + two)[1..] == one[1..] + two;
      AssembleConcat(AddChoices(message, one[0].choices), one[1..], two);
    }
  }
}
