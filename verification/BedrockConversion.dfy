/**
 * `messagesFromOpenAI`: an OpenAI message list becomes a Converse conversation. This module gives the
 * conversion as a fold over the messages and proves what it promises end to end, together with the
 * sanitiser that runs on its result.
 */
module BedrockConversion {
  import opened Options
  import opened BedrockMessages
  import opened BedrockSanitizer
  import opened BedrockPairing
  import opened BedrockContent
  import Strings

  // ---------------------------------------------------------------- requests

  /** A content part; what the source ignores is `OtherPart`. */
  datatype Part =
    | TextPart(text: string)
    | ImagePart(image: Option<(string, string)>)
    | ToolUsePart(useId: ToolId, name: string, input: string)
    | ToolResultPart(resultId: ToolId, output: string, isError: bool)
    | OtherPart

  datatype Content = StringContent(text: string) | PartsContent(parts: seq<Part>) | OtherContent

  /** A tool call with its parsed arguments. An id that is no string has no key. */
  datatype ToolCall = ToolCall(id: ToolId, name: string, input: string)

  datatype Request =
    | NotAnObject
    | Request(role: string, content: Content, toolCalls: seq<ToolCall>, toolCallId: ToolId, output: string)

  /** The generator of `toolu_…` ids: the n-th draw. */
  type Supply = nat -> string

  function PartsOf(content: Content): seq<Part> {
    if content.PartsContent? then content.parts else []
  }

  // ---------------------------------------------------------------- collecting answers

  function AnswersInParts(parts: seq<Part>): set<string> {
    if parts == [] then {}
    else
      var p := parts[|parts| - 1];
      AnswersInParts(parts[..|parts| - 1])
      + if p.ToolResultPart? && p.resultId.key.Some? then {p.resultId.key.value} else {}
  }

  function AnswersIn(m: Request): set<string> {
    if m.NotAnObject? then {}
    else (if m.role == "tool" && m.toolCallId.key.Some? then {m.toolCallId.key.value} else {})
         + AnswersInParts(PartsOf(m.content))
  }

  /** Every id that some message of the request answers. */
  function AnsweredIds(ms: seq<Request>): set<string> {
    if ms == [] then {} else AnsweredIds(ms[..|ms| - 1]) + AnswersIn(ms[|ms| - 1])
  }

  // ---------------------------------------------------------------- converting

  /** What one part becomes, when `drawn` generated ids have been used. */
  function PartBlocks(p: Part, skip: set<string>, answered: set<string>, supply: Supply, drawn: nat)
    : seq<Block>
  {
    match p
    case TextPart(text) => if Strings.IsBlank(text) then [] else [Text(text)]
    case ImagePart(image) => if image.Some? then [Image(image.value.0, image.value.1)] else []
    case ToolUsePart(id, name, input) =>
      if id.key.None? then [ToolUse(Trimmed(supply(drawn)), name, input)]
      else if id.key.value in skip || id.key.value !in answered then []
      else [ToolUse(Trimmed(id.key.value), name, input)]
    case ToolResultPart(id, output, isError) =>
      [ToolResult(id, output, if isError then "error" else "success")]
    case OtherPart => []
  }

  function Draws(p: Part): nat {
    if p.ToolUsePart? && p.useId.key.None? then 1 else 0
  }

  function DrawsOf(parts: seq<Part>): nat {
    if parts == [] then 0 else DrawsOf(parts[..|parts| - 1]) + Draws(parts[|parts| - 1])
  }

  function PartsBlocks(parts: seq<Part>, skip: set<string>, answered: set<string>,
                       supply: Supply, drawn: nat): seq<Block>
  {
    if parts == [] then []
    else
      var rest := parts[..|parts| - 1];
      PartsBlocks(rest, skip, answered, supply, drawn)
      + PartBlocks(parts[|parts| - 1], skip, answered, supply, drawn + DrawsOf(rest))
  }

  function ContentBlocks(content: Content, skip: set<string>, answered: set<string>,
                         supply: Supply, drawn: nat): seq<Block>
  {
    match content
    case StringContent(text) => if Strings.IsBlank(text) then [] else [Text(text)]
    case PartsContent(parts) => PartsBlocks(parts, skip, answered, supply, drawn)
    case OtherContent => []
  }

  /** The blocks of a message so far, the calls awaiting their result, and the ids drawn. */
  datatype CallState = CallState(blocks: seq<Block>, pending: set<string>, drawn: nat)

  function AddCall(s: CallState, call: ToolCall, answered: set<string>, supply: Supply): CallState {
    var id := if call.id.key.Some? then call.id.key.value else supply(s.drawn);
    var drawn := if call.id.key.Some? then s.drawn else s.drawn + 1;
    if id in s.pending || id !in answered then s.(drawn := drawn)
    else
      var name := if call.name == "" then "unknown_tool" else call.name;
      CallState(s.blocks + [ToolUse(Trimmed(id), name, call.input)], s.pending + {id}, drawn)
  }

  function AddCalls(s: CallState, calls: seq<ToolCall>, answered: set<string>, supply: Supply): CallState {
    if calls == [] then s
    else AddCall(AddCalls(s, calls[..|calls| - 1], answered, supply), calls[|calls| - 1], answered, supply)
  }

  function CallIds(calls: seq<ToolCall>): set<string> {
    if calls == [] then {}
    else
      var c := calls[|calls| - 1];
      CallIds(calls[..|calls| - 1]) + if c.id.key.Some? then {c.id.key.value} else {}
  }

  datatype State = State(out: seq<Msg>, pending: set<string>, answered: set<string>, drawn: nat)

  predicate Converts(m: Request) {
    m.Request? && m.role != "system" && m.role != "developer"
  }

  function RoleOf(role: string): Role {
    if role == "assistant" then Assistant else User
  }

  function ToolMessage(st: State, m: Request, supply: Supply): State
    requires Converts(m) && m.role == "tool"
  {
    var id := if m.toolCallId.key.Some? then m.toolCallId.key.value else supply(st.drawn);
    var drawn := if m.toolCallId.key.Some? then st.drawn else st.drawn + 1;
    State(st.out + [Msg(User, [ToolResult(Trimmed(id), m.output, "success")])],
          st.pending - {id}, st.answered + {id}, drawn)
  }

  function ChatState(st: State, m: Request, supply: Supply): CallState
    requires Converts(m)
  {
    var blocks := ContentBlocks(m.content, CallIds(m.toolCalls), st.answered, supply, st.drawn);
    AddCalls(CallState(blocks, st.pending, st.drawn + DrawsOf(PartsOf(m.content))),
             m.toolCalls, st.answered, supply)
  }

  function ChatMessage(st: State, m: Request, supply: Supply): State
    requires Converts(m) && m.role != "tool"
  {
    var s := ChatState(st, m, supply);
    State(st.out + [Msg(RoleOf(m.role), NonEmpty(s.blocks))], s.pending, st.answered, s.drawn)
  }

  function Step(st: State, m: Request, supply: Supply): State {
    if !Converts(m) then st
    else if m.role == "tool" then ToolMessage(st, m, supply)
    else ChatMessage(st, m, supply)
  }

  function Run(st: State, ms: seq<Request>, supply: Supply): State {
    if ms == [] then st else Step(Run(st, ms[..|ms| - 1], supply), ms[|ms| - 1], supply)
  }

  function Start(ms: seq<Request>): State {
    State([], {}, AnsweredIds(ms), 0)
  }

  /** The conversation before it is sanitised. */
  function Convert(ms: seq<Request>, supply: Supply): seq<Msg> {
    var out := Run(Start(ms), ms, supply).out;
    if out == [] then [Msg(User, [PLACEHOLDER])] else out
  }

  function MessagesFromOpenAI(ms: seq<Request>, supply: Supply): seq<Msg> {
    Sanitize(Convert(ms, supply))
  }

  // ---------------------------------------------------------------- shape

  lemma {:induction false} RunNonEmpty(ms: seq<Request>, st: State, supply: Supply)
    requires AllNonEmpty(st.out)
    ensures AllNonEmpty(Run(st, ms, supply).out)
  {
    if ms != [] {
      RunNonEmpty(ms[..|ms| - 1], st, supply);
    }
  }

  /** Every request becomes at least one message, and every message has at least one block. */
  lemma ConversationNonEmpty(ms: seq<Request>, supply: Supply)
    ensures var out := MessagesFromOpenAI(ms, supply); out != [] && AllNonEmpty(out)
  {
    RunNonEmpty(ms, Start(ms), supply);
    SanitizeNonEmpty(Convert(ms, supply));
  }

  /** For every request and every id, results and calls are left in equal number. */
  lemma ConversationCounts(ms: seq<Request>, supply: Supply, x: string)
    ensures var out := MessagesFromOpenAI(ms, supply); Results(out, x, |out|) == Holders(out, x, |out|)
  {
    CountingLaw(Convert(ms, supply), x);
  }

  // ---------------------------------------------------------------- text and images

  function PlainOfPart(p: Part): seq<Block> {
    match p
    case TextPart(text) => if Strings.IsBlank(text) then [] else [Text(text)]
    case ImagePart(image) => if image.Some? then [Image(image.value.0, image.value.1)] else []
    case _ => []
  }

  function PlainOfParts(parts: seq<Part>): seq<Block> {
    if parts == [] then [] else PlainOfParts(parts[..|parts| - 1]) + PlainOfPart(parts[|parts| - 1])
  }

  function PlainOfContent(content: Content): seq<Block> {
    match content
    case StringContent(text) => PlainOfPart(TextPart(text))
    case PartsContent(parts) => PlainOfParts(parts)
    case OtherContent => []
  }

  /**
   * The text and images a caller put into a message that is no system prompt, in the role of the message: blank
   * text does not count, and neither does what a tool message holds.
   */
  function PlainOfRequest(m: Request): seq<(Role, Block)> {
    if m.Request? && m.role !in {"system", "developer", "tool"}
    then Tag(if m.role == "assistant" then Assistant else User, PlainOfContent(m.content)) else []
  }

  function PlainOfRequests(ms: seq<Request>): seq<(Role, Block)> {
    if ms == [] then [] else PlainOfRequests(ms[..|ms| - 1]) + PlainOfRequest(ms[|ms| - 1])
  }

  lemma BlankPlaceholder()
    ensures Strings.IsBlank(" ")
  {
  }

  lemma SingleBlock(b: Block)
    ensures PlainOf([b]) == if IsPlain(b) then [b] else []
  {
    PlainOfLast([], b);
    assert [] + [b] == [b];
  }

  lemma NonBlankIsPlain(text: string)
    requires !Strings.IsBlank(text)
    ensures IsPlain(Text(text))
  {
    BlankPlaceholder();
  }

  lemma PartPlain(p: Part, skip: set<string>, answered: set<string>, supply: Supply, drawn: nat)
    ensures PlainOf(PartBlocks(p, skip, answered, supply, drawn)) == PlainOfPart(p)
  {
    var blocks := PartBlocks(p, skip, answered, supply, drawn);
    if blocks != [] {
      SingleBlock(blocks[0]);
      if p.TextPart? {
        NonBlankIsPlain(p.text);
      }
    }
  }

  lemma {:induction false} PartsPlain(parts: seq<Part>, skip: set<string>, answered: set<string>,
                                      supply: Supply, drawn: nat)
    ensures PlainOf(PartsBlocks(parts, skip, answered, supply, drawn)) == PlainOfParts(parts)
  {
    if parts != [] {
      var rest, p := parts[..|parts| - 1], parts[|parts| - 1];
      PartsPlain(rest, skip, answered, supply, drawn);
      PartPlain(p, skip, answered, supply, drawn + DrawsOf(rest));
      var a := PartsBlocks(rest, skip, answered, supply, drawn);
      var b := PartBlocks(p, skip, answered, supply, drawn + DrawsOf(rest));
      assert PartsBlocks(parts, skip, answered, supply, drawn) == a + b;
      assert PlainOfParts(parts) == PlainOfParts(rest) + PlainOfPart(p);
      PlainOfSum(a, PlainOfParts(rest), b, PlainOfPart(p));
    }
  }

  lemma {:induction false} PlainOfSum(a: seq<Block>, pa: seq<Block>, b: seq<Block>, pb: seq<Block>)
    requires PlainOf(a) == pa && PlainOf(b) == pb
    ensures PlainOf(a + b) == pa + pb
  {
    PlainOfConcat(a, b);
  }

  lemma CallPlain(s: CallState, call: ToolCall, answered: set<string>, supply: Supply)
    ensures PlainOf(AddCall(s, call, answered, supply).blocks) == PlainOf(s.blocks)
  {
    var t := AddCall(s, call, answered, supply);
    if t.blocks != s.blocks {
      PlainOfLast(s.blocks, t.blocks[|s.blocks|]);
      assert PlainOf(s.blocks) + [] == PlainOf(s.blocks);
    }
  }

  lemma {:induction false} CallsPlain(s: CallState, calls: seq<ToolCall>, answered: set<string>, supply: Supply)
    ensures PlainOf(AddCalls(s, calls, answered, supply).blocks) == PlainOf(s.blocks)
  {
    if calls != [] {
      var rest := calls[..|calls| - 1];
      CallsPlain(s, rest, answered, supply);
      CallPlain(AddCalls(s, rest, answered, supply), calls[|calls| - 1], answered, supply);
    }
  }

  lemma ContentPlain(content: Content, skip: set<string>, answered: set<string>, supply: Supply, drawn: nat)
    ensures PlainOf(ContentBlocks(content, skip, answered, supply, drawn)) == PlainOfContent(content)
  {
    match content
    case StringContent(text) => PartPlain(TextPart(text), skip, answered, supply, drawn);
    case PartsContent(parts) => PartsPlain(parts, skip, answered, supply, drawn);
    case OtherContent =>
  }

  lemma ChatPlain(st: State, m: Request, supply: Supply)
    requires Converts(m) && m.role != "tool"
    ensures PlainOf(NonEmpty(ChatState(st, m, supply).blocks)) == PlainOfContent(m.content)
  {
    var blocks := ContentBlocks(m.content, CallIds(m.toolCalls), st.answered, supply, st.drawn);
    var s := CallState(blocks, st.pending, st.drawn + DrawsOf(PartsOf(m.content)));
    ContentPlain(m.content, CallIds(m.toolCalls), st.answered, supply, st.drawn);
    CallsPlain(s, m.toolCalls, st.answered, supply);
    NonEmptyPlain(ChatState(st, m, supply).blocks);
  }

  lemma ToolPlain(st: State, m: Request, supply: Supply)
    requires Converts(m) && m.role == "tool"
    ensures Plain(ToolMessage(st, m, supply).out) == Plain(st.out)
  {
    var last := ToolMessage(st, m, supply).out[|st.out|];
    PlainLast(st.out, last);
    SingleBlock(last.content[0]);
    assert last.content == [last.content[0]];
    assert Plain(st.out) + [] == Plain(st.out);
  }

  lemma StepPlain(st: State, m: Request, supply: Supply)
    ensures Plain(Step(st, m, supply).out) == Plain(st.out) + PlainOfRequest(m)
  {
    if Converts(m) && m.role != "tool" {
      ChatPlain(st, m, supply);
      PlainLast(st.out, Msg(RoleOf(m.role), NonEmpty(ChatState(st, m, supply).blocks)));
    } else {
      assert Plain(st.out) + [] == Plain(st.out);
      if Converts(m) {
        ToolPlain(st, m, supply);
      }
    }
  }

  lemma {:induction false} RunPlain(ms: seq<Request>, st: State, supply: Supply)
    requires st.out == []
    ensures Plain(Run(st, ms, supply).out) == PlainOfRequests(ms)
  {
    if ms != [] {
      RunPlain(ms[..|ms| - 1], st, supply);
      StepPlain(Run(st, ms[..|ms| - 1], supply), ms[|ms| - 1], supply);
    }
  }

  /**
   * Converting and sanitising lose no text and no image: those of the request come out, in order and each in
   * its role, and nothing but single-space placeholders is added to them.
   */
  lemma {:induction false} ConversationPlain(ms: seq<Request>, supply: Supply)
    ensures Plain(MessagesFromOpenAI(ms, supply)) == PlainOfRequests(ms)
  {
    RunPlain(ms, Start(ms), supply);
    SanitizeKeepsPlain(Convert(ms, supply));
    var out := Run(Start(ms), ms, supply).out;
    if out == [] {
      var only := Msg(User, [PLACEHOLDER]);
      PlainLast([], only);
      SingleBlock(PLACEHOLDER);
      assert [] + [only] == Convert(ms, supply);
    }
  }
}
