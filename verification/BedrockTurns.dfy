/**
 * `messagesFromOpenAI` message by message, before it is sanitised: each message of the request that is not a
 * system prompt becomes one message, and this module says, in terms of the request alone, in which role, with
 * which text and images, and with which calls and results of a caller's id.
 */
module BedrockTurns {
  import opened Options
  import opened BedrockMessages
  import opened BedrockSanitizer
  import opened BedrockConversion
  import opened BedrockToolBlocks

  /** The caller's id is none of the generated ones. */
  ghost predicate NotGenerated(supply: Supply, x: string) {
    forall n: nat :: supply(n) != x
  }

  // ---------------------------------------------------------------- what the request says

  /** The messages that are converted: all but system prompts. */
  function Turns(ms: seq<Request>): seq<Request> {
    if ms == [] then []
    else
      var m := ms[|ms| - 1];
      Turns(ms[..|ms| - 1]) + if m.Request? && m.role != "system" && m.role != "developer" then [m] else []
  }

  /** The result for `x` that a part holds. */
  function PartResult(p: Part, x: string): seq<Block> {
    if p.ToolResultPart? && p.resultId.key == Some(x)
    then [ToolResult(p.resultId, p.output, if p.isError then "error" else "success")] else []
  }

  function PartResults(parts: seq<Part>, x: string): seq<Block> {
    if parts == [] then [] else PartResults(parts[..|parts| - 1], x) + PartResult(parts[|parts| - 1], x)
  }

  /** The call of `x` that a part holds. */
  function PartCall(p: Part, x: string): seq<Block> {
    if p.ToolUsePart? && p.useId.key == Some(x) then [ToolUse(ToolId(x, Some(x)), p.name, p.input)] else []
  }

  function PartCalls(parts: seq<Part>, x: string): seq<Block> {
    if parts == [] then [] else PartCalls(parts[..|parts| - 1], x) + PartCall(parts[|parts| - 1], x)
  }

  /** What the request message answers to `x`. */
  function TurnResults(m: Request, x: string): seq<Block>
    requires m.Request?
  {
    if m.role != "tool" then PartResults(PartsOf(m.content), x)
    else if m.toolCallId.key == Some(x) then [ToolResult(ToolId(x, Some(x)), m.output, "success")] else []
  }

  /** The first tool call of `x`. */
  function FirstCall(calls: seq<ToolCall>, x: string): Option<Block> {
    if calls == [] then None
    else if calls[0].id.key == Some(x) then
      Some(ToolUse(ToolId(x, Some(x)), if calls[0].name == "" then "unknown_tool" else calls[0].name, calls[0].input))
    else FirstCall(calls[1..], x)
  }

  /** How the request message calls `x`: by its first tool call of `x`, else by its parts. */
  function TurnCalls(m: Request, x: string): seq<Block>
    requires m.Request?
  {
    if m.role == "tool" then []
    else if FirstCall(m.toolCalls, x).Some? then [FirstCall(m.toolCalls, x).value]
    else PartCalls(PartsOf(m.content), x)
  }

  /** A tool call of `x` was made in a message before message `j`, and no tool message has answered it since. */
  ghost predicate Pending(turns: seq<Request>, x: string, j: nat) {
    exists i :: 0 <= i < j <= |turns| && CallsAt(turns, x, i) && forall k :: i < k < j ==> !ToolAnswersAt(turns, x, k)
  }

  predicate CallsAt(turns: seq<Request>, x: string, i: int) {
    0 <= i < |turns| && turns[i].Request? && turns[i].role != "tool" && FirstCall(turns[i].toolCalls, x).Some?
  }

  predicate ToolAnswersAt(turns: seq<Request>, x: string, k: int) {
    0 <= k < |turns| && turns[k].Request? && turns[k].role == "tool" && turns[k].toolCallId.key == Some(x)
  }

  /** Some message of the request answers `x`. */
  ghost predicate SomewhereAnswered(ms: seq<Request>, x: string) {
    exists i :: 0 <= i < |ms| && x in AnswersIn(ms[i])
  }

  /** Message `j` passes its calls of `x` on: `x` is answered, and no tool call of it is made while one is pending. */
  ghost predicate Passes(turns: seq<Request>, x: string, j: nat)
    requires j < |turns| && turns[j].Request?
  {
    FirstCall(turns[j].toolCalls, x).Some? ==> !Pending(turns, x, j)
  }

  // ---------------------------------------------------------------- one message

  lemma OneBlock(b: Block, x: string)
    ensures ResultsIn([b], x) == if ResultIdOf(b) == Some(x) then [b] else []
    ensures UsesIn([b], x) == if UseIdOf(b) == Some(x) then [b] else []
  {
    BlocksLast([], b, x);
    assert [] + [b] == [b];
  }

  lemma CallPartOf(p: Part, skip: set<string>, answered: set<string>, supply: Supply, drawn: nat, x: string)
    requires NotGenerated(supply, x) && p.ToolUsePart?
    ensures var blocks := PartBlocks(p, skip, answered, supply, drawn);
            && ResultsIn(blocks, x) == []
            && UsesIn(blocks, x) == if x !in skip && x in answered then PartCall(p, x) else []
  {
    var id := Trimmed(if p.useId.key.Some? then p.useId.key.value else supply(drawn));
    OneBlock(ToolUse(id, p.name, p.input), x);
  }

  lemma OtherPartOf(p: Part, skip: set<string>, answered: set<string>, supply: Supply, drawn: nat, x: string)
    requires !p.ToolUsePart?
    ensures var blocks := PartBlocks(p, skip, answered, supply, drawn);
            ResultsIn(blocks, x) == PartResult(p, x) && UsesIn(blocks, x) == []
  {
    match p
    case TextPart(text) => OneBlock(Text(text), x);
    case ImagePart(image) =>
      if image.Some? {
        OneBlock(Image(image.value.0, image.value.1), x);
      }
    case ToolResultPart(id, output, isError) =>
      OneBlock(ToolResult(id, output, if isError then "error" else "success"), x);
    case OtherPart =>
  }

  lemma PartBlocksOf(p: Part, skip: set<string>, answered: set<string>, supply: Supply, drawn: nat, x: string,
                     counts: bool)
    requires NotGenerated(supply, x) && counts == (x !in skip && x in answered)
    ensures OnePartGives(PartBlocks(p, skip, answered, supply, drawn), p, x, counts)
  {
    if p.ToolUsePart? {
      CallPartOf(p, skip, answered, supply, drawn, x);
    } else {
      OtherPartOf(p, skip, answered, supply, drawn, x);
    }
  }

  lemma PartsBlocksLast(parts: seq<Part>, skip: set<string>, answered: set<string>, supply: Supply, drawn: nat)
    returns (later: nat)
    requires parts != []
    ensures PartsBlocks(parts, skip, answered, supply, drawn)
            == PartsBlocks(parts[..|parts| - 1], skip, answered, supply, drawn)
               + PartBlocks(parts[|parts| - 1], skip, answered, supply, later)
  {
    later := drawn + DrawsOf(parts[..|parts| - 1]);
  }

  /** The blocks of `x` among those of the parts. */
  ghost predicate PartsGive(blocks: seq<Block>, parts: seq<Part>, x: string, counts: bool) {
    && ResultsIn(blocks, x) == PartResults(parts, x)
    && UsesIn(blocks, x) == if counts then PartCalls(parts, x) else []
  }

  ghost predicate OnePartGives(blocks: seq<Block>, p: Part, x: string, counts: bool) {
    && ResultsIn(blocks, x) == PartResult(p, x)
    && UsesIn(blocks, x) == if counts then PartCall(p, x) else []
  }

  lemma OnePartMore(parts: seq<Part>, x: string, counts: bool, all: seq<Block>, a: seq<Block>, b: seq<Block>)
    requires parts != [] && all == a + b
    requires PartsGive(a, parts[..|parts| - 1], x, counts) && OnePartGives(b, parts[|parts| - 1], x, counts)
    ensures PartsGive(all, parts, x, counts)
  {
    BlocksConcat(a, b, x);
  }

  lemma {:induction false} PartsBlocksOf(parts: seq<Part>, skip: set<string>, answered: set<string>,
                                         supply: Supply, drawn: nat, x: string, counts: bool)
    requires NotGenerated(supply, x) && counts == (x !in skip && x in answered)
    ensures PartsGive(PartsBlocks(parts, skip, answered, supply, drawn), parts, x, counts)
  {
    if parts != [] {
      var rest, p := parts[..|parts| - 1], parts[|parts| - 1];
      var later := PartsBlocksLast(parts, skip, answered, supply, drawn);
      PartsBlocksOf(rest, skip, answered, supply, drawn, x, counts);
      PartBlocksOf(p, skip, answered, supply, later, x, counts);
      OnePartMore(parts, x, counts, PartsBlocks(parts, skip, answered, supply, drawn),
                  PartsBlocks(rest, skip, answered, supply, drawn), PartBlocks(p, skip, answered, supply, later));
    }
  }

  lemma ContentBlocksOf(content: Content, skip: set<string>, answered: set<string>, supply: Supply,
                        drawn: nat, x: string)
    requires NotGenerated(supply, x)
    ensures var blocks := ContentBlocks(content, skip, answered, supply, drawn);
            && ResultsIn(blocks, x) == PartResults(PartsOf(content), x)
            && UsesIn(blocks, x) == if x !in skip && x in answered then PartCalls(PartsOf(content), x) else []
  {
    match content
    case PartsContent(parts) =>
      PartsBlocksOf(parts, skip, answered, supply, drawn, x, x !in skip && x in answered);
    case StringContent(text) => OneBlock(Text(text), x);
    case OtherContent =>
  }

  lemma {:induction false} FirstCallLast(calls: seq<ToolCall>, call: ToolCall, x: string)
    ensures FirstCall(calls + [call], x)
            == if FirstCall(calls, x).Some? then FirstCall(calls, x) else FirstCall([call], x)
    ensures FirstCall(calls, x).Some? <==> x in CallIds(calls)
    ensures FirstCall([call], x).Some? <==> call.id.key == Some(x)
  {
    if calls == [] {
      assert calls + [call] == [call];
    } else {
      assert (calls + [call])[1..] == calls[1..] + [call];
      FirstCallLast(calls[1..], call, x);
      CallIdsFirst(calls, x);
    }
  }

  lemma {:induction false} CallIdsFirst(calls: seq<ToolCall>, x: string)
    requires calls != []
    ensures x in CallIds(calls) <==> calls[0].id.key == Some(x) || x in CallIds(calls[1..])
  {
    if |calls| > 1 {
      CallIdsFirst(calls[..|calls| - 1], x);
      assert calls[1..][..|calls| - 2] == calls[..|calls| - 1][1..];
    }
  }

  lemma AddCallOf(s: CallState, call: ToolCall, answered: set<string>, supply: Supply, x: string)
    requires NotGenerated(supply, x)
    ensures var t := AddCall(s, call, answered, supply);
            && ResultsIn(t.blocks, x) == ResultsIn(s.blocks, x)
            && (x in t.pending <==> x in s.pending || (call.id.key == Some(x) && x in answered))
            && UsesIn(t.blocks, x)
               == UsesIn(s.blocks, x)
                  + if call.id.key == Some(x) && x !in s.pending && x in answered
                    then [FirstCall([call], x).value] else []
  {
    var t := AddCall(s, call, answered, supply);
    if t.blocks != s.blocks {
      BlocksLast(s.blocks, t.blocks[|s.blocks|], x);
    }
    assert UsesIn(s.blocks, x) + [] == UsesIn(s.blocks, x);
  }

  /** Of the tool calls of `x` the first one is added, unless one is pending or nothing answers `x`. */
  lemma {:induction false} AddCallsOf(s: CallState, calls: seq<ToolCall>, answered: set<string>,
                                      supply: Supply, x: string)
    requires NotGenerated(supply, x)
    ensures var t, first := AddCalls(s, calls, answered, supply), FirstCall(calls, x);
            && ResultsIn(t.blocks, x) == ResultsIn(s.blocks, x)
            && (x in t.pending <==> x in s.pending || (first.Some? && x in answered))
            && UsesIn(t.blocks, x)
               == UsesIn(s.blocks, x)
                  + if first.Some? && x !in s.pending && x in answered then [first.value] else []
  {
    if calls == [] {
      assert UsesIn(s.blocks, x) + [] == UsesIn(s.blocks, x);
    } else {
      var rest, call := calls[..|calls| - 1], calls[|calls| - 1];
      assert calls == rest + [call];
      AddCallsOf(s, rest, answered, supply, x);
      AddCallOf(AddCalls(s, rest, answered, supply), call, answered, supply, x);
      FirstCallLast(rest, call, x);
    }
  }

  lemma HasCallIds(calls: seq<ToolCall>, x: string)
    ensures FirstCall(calls, x).Some? <==> x in CallIds(calls)
  {
    FirstCallLast(calls, ToolCall(ToolId("", None), "", ""), x);
  }

  lemma ChatCallsOf(st: State, m: Request, supply: Supply, x: string)
    requires Converts(m) && m.role != "tool" && NotGenerated(supply, x)
    ensures var s, first := ChatState(st, m, supply), FirstCall(m.toolCalls, x);
            && ResultsIn(s.blocks, x) == PartResults(PartsOf(m.content), x)
            && UsesIn(s.blocks, x)
               == (if first.None? && x in st.answered then PartCalls(PartsOf(m.content), x) else [])
                  + (if first.Some? && x !in st.pending && x in st.answered then [first.value] else [])
            && (x in s.pending <==> x in st.pending || (first.Some? && x in st.answered))
  {
    var blocks := ContentBlocks(m.content, CallIds(m.toolCalls), st.answered, supply, st.drawn);
    var s := CallState(blocks, st.pending, st.drawn + DrawsOf(PartsOf(m.content)));
    ContentBlocksOf(m.content, CallIds(m.toolCalls), st.answered, supply, st.drawn, x);
    HasCallIds(m.toolCalls, x);
    AddCallsOf(s, m.toolCalls, st.answered, supply, x);
    assert ChatState(st, m, supply) == AddCalls(s, m.toolCalls, st.answered, supply);
  }

  /** The calls and results of `x` in a message that is no tool message, and whether a call is pending after it. */
  lemma ChatBlocksOf(st: State, m: Request, supply: Supply, x: string)
    requires Converts(m) && m.role != "tool" && NotGenerated(supply, x)
    ensures var s := ChatState(st, m, supply);
            && ResultsIn(NonEmpty(s.blocks), x) == TurnResults(m, x)
            && UsesIn(NonEmpty(s.blocks), x)
               == (if x in st.answered && (FirstCall(m.toolCalls, x).Some? ==> x !in st.pending)
                   then TurnCalls(m, x) else [])
            && (x in s.pending <==> x in st.pending || (FirstCall(m.toolCalls, x).Some? && x in st.answered))
  {
    ChatCallsOf(st, m, supply, x);
    PlaceholderBlocks(ChatState(st, m, supply).blocks, x);
  }

  // ---------------------------------------------------------------- the whole request

  /** Message `m` of the conversation is what message `t` of the request becomes. */
  ghost predicate Becomes(t: Request, m: Msg, x: string, passes: bool)
    requires t.Request?
  {
    && m.role == (if t.role == "assistant" then Assistant else User)
    && PlainOf(m.content) == (if t.role == "tool" then [] else PlainOfContent(t.content))
    && ResultsIn(m.content, x) == TurnResults(t, x)
    && UsesIn(m.content, x) == if passes then TurnCalls(t, x) else []
  }

  lemma StepBecomes(st: State, m: Request, supply: Supply, x: string)
    requires Converts(m) && NotGenerated(supply, x)
    ensures var next := Step(st, m, supply);
            && |next.out| == |st.out| + 1 && next.out == st.out + [next.out[|st.out|]]
            && Becomes(m, next.out[|st.out|], x,
                       x in st.answered && (FirstCall(m.toolCalls, x).Some? ==> x !in st.pending))
            && (x in next.pending <==>
                  if m.role == "tool" then x in st.pending && m.toolCallId.key != Some(x)
                  else x in st.pending || (FirstCall(m.toolCalls, x).Some? && x in st.answered))
            && (x in next.answered <==> x in st.answered || (m.role == "tool" && m.toolCallId.key == Some(x)))
  {
    var last := Step(st, m, supply).out[|st.out|];
    if m.role == "tool" {
      OneBlock(last.content[0], x);
      SingleBlock(last.content[0]);
      assert last.content == [last.content[0]];
    } else {
      ChatBlocksOf(st, m, supply, x);
      ChatPlain(st, m, supply);
    }
  }

  lemma PendingLast(turns: seq<Request>, m: Request, x: string)
    requires m.Request?
    ensures Pending(turns + [m], x, |turns| + 1)
            <==> if m.role == "tool" then Pending(turns, x, |turns|) && m.toolCallId.key != Some(x)
                 else Pending(turns, x, |turns|) || FirstCall(m.toolCalls, x).Some?
  {
    var all, n := turns + [m], |turns|;
    assert forall i :: 0 <= i < n ==> CallsAt(all, x, i) == CallsAt(turns, x, i);
    assert forall k :: 0 <= k < n ==> ToolAnswersAt(all, x, k) == ToolAnswersAt(turns, x, k);
    if Pending(turns, x, n) && !ToolAnswersAt(all, x, n) {
      var i :| 0 <= i < n && CallsAt(turns, x, i) && forall k :: i < k < n ==> !ToolAnswersAt(turns, x, k);
      assert CallsAt(all, x, i) && forall k :: i < k < n + 1 ==> !ToolAnswersAt(all, x, k);
    }
    if CallsAt(all, x, n) {
      assert forall k :: n < k < n + 1 ==> !ToolAnswersAt(all, x, k);
    }
    if Pending(all, x, n + 1) {
      var i :| 0 <= i < n + 1 && CallsAt(all, x, i) && forall k :: i < k < n + 1 ==> !ToolAnswersAt(all, x, k);
      if i < n {
        assert !ToolAnswersAt(all, x, n);
        assert CallsAt(turns, x, i) && forall k :: i < k < n ==> !ToolAnswersAt(turns, x, k);
      }
    }
  }

  lemma PendingPrefix(turns: seq<Request>, m: Request, x: string, j: nat)
    requires j <= |turns|
    ensures Pending(turns + [m], x, j) <==> Pending(turns, x, j)
  {
    var all := turns + [m];
    assert forall i :: 0 <= i < j ==> CallsAt(all, x, i) == CallsAt(turns, x, i);
    assert forall k :: 0 <= k < j ==> ToolAnswersAt(all, x, k) == ToolAnswersAt(turns, x, k);
    if Pending(turns, x, j) {
      var i :| 0 <= i < j && CallsAt(turns, x, i) && forall k :: i < k < j ==> !ToolAnswersAt(turns, x, k);
      assert CallsAt(all, x, i) && forall k :: i < k < j ==> !ToolAnswersAt(all, x, k);
    }
    if Pending(all, x, j) {
      var i :| 0 <= i < j && CallsAt(all, x, i) && forall k :: i < k < j ==> !ToolAnswersAt(all, x, k);
      assert CallsAt(turns, x, i) && forall k :: i < k < j ==> !ToolAnswersAt(turns, x, k);
    }
  }

  /** Every message so far became what it should. */
  ghost predicate AllBecome(turns: seq<Request>, out: seq<Msg>, x: string, answered: bool) {
    && |out| == |turns|
    && forall j :: 0 <= j < |turns| ==>
         turns[j].Request? && Becomes(turns[j], out[j], x, answered && Passes(turns, x, j))
  }

  lemma MoreBecome(turns: seq<Request>, out: seq<Msg>, t: Request, m: Msg, x: string, answered: bool)
    requires AllBecome(turns, out, x, answered) && t.Request?
    requires Becomes(t, m, x, answered && (FirstCall(t.toolCalls, x).Some? ==> !Pending(turns, x, |turns|)))
    ensures AllBecome(turns + [t], out + [m], x, answered)
  {
    var all, more := turns + [t], out + [m];
    forall j | 0 <= j < |all|
      ensures all[j].Request? && Becomes(all[j], more[j], x, answered && Passes(all, x, j))
    {
      PendingPrefix(turns, t, x, j);
      if j < |turns| {
        assert all[j] == turns[j] && more[j] == out[j];
      }
    }
  }

  /** The conversion stands where the turns say: what became of them, and whether a call of `x` is pending. */
  ghost predicate StandsAt(st: State, turns: seq<Request>, x: string, answered: bool) {
    && AllBecome(turns, st.out, x, answered)
    && (x in st.pending <==> answered && Pending(turns, x, |turns|))
    && (x in st.answered <==> answered)
  }

  lemma StepStands(st: State, turns: seq<Request>, m: Request, supply: Supply, x: string, answered: bool)
    requires Converts(m) && NotGenerated(supply, x) && StandsAt(st, turns, x, answered)
    requires m.role == "tool" && m.toolCallId.key == Some(x) ==> answered
    ensures StandsAt(Step(st, m, supply), turns + [m], x, answered)
  {
    StepBecomes(st, m, supply, x);
    MoreBecome(turns, st.out, m, Step(st, m, supply).out[|st.out|], x, answered);
    PendingLast(turns, m, x);
  }

  lemma {:induction false} RunStands(ms: seq<Request>, st: State, supply: Supply, x: string)
    requires NotGenerated(supply, x) && st.out == [] && x !in st.pending
    requires forall i :: 0 <= i < |ms| && x in AnswersIn(ms[i]) ==> x in st.answered
    ensures StandsAt(Run(st, ms, supply), Turns(ms), x, x in st.answered)
  {
    if ms != [] {
      var rest, m := ms[..|ms| - 1], ms[|ms| - 1];
      RunStands(rest, st, supply, x);
      if Converts(m) {
        StepStands(Run(st, rest, supply), Turns(rest), m, supply, x, x in st.answered);
      } else {
        assert Turns(rest) + [] == Turns(rest);
      }
    }
  }

  lemma {:induction false} AnsweredSomewhere(ms: seq<Request>, x: string)
    ensures x in AnsweredIds(ms) <==> SomewhereAnswered(ms, x)
  {
    if ms != [] {
      var rest, m := ms[..|ms| - 1], ms[|ms| - 1];
      AnsweredSomewhere(rest, x);
      if SomewhereAnswered(rest, x) {
        var i :| 0 <= i < |rest| && x in AnswersIn(rest[i]);
        assert ms[i] == rest[i];
      }
    }
  }

  /**
   * Message by message. Each message of the request but the system prompts becomes one message, in its role, with
   * its text and images, its results for `x` with their outputs and states, and, when `x` is answered anywhere
   * and no tool call of it is pending, its calls of `x` with their names and inputs.
   */
  lemma TurnByTurn(ms: seq<Request>, supply: Supply, x: string)
    requires NotGenerated(supply, x)
    ensures var turns, out := Turns(ms), Convert(ms, supply);
            if turns == [] then out == [Msg(User, [Text(" ")])]
            else && |out| == |turns|
                 && forall j :: 0 <= j < |turns| ==>
                      && turns[j].Request?
                      && Becomes(turns[j], out[j], x, SomewhereAnswered(ms, x) && Passes(turns, x, j))
  {
    AnsweredSomewhere(ms, x);
    AnsweredAll(ms, x);
    RunStands(ms, Start(ms), supply, x);
  }

  // ---------------------------------------------------------------- the order of the blocks

  /** The block that a part can become; the id of a tool block is not looked at. */
  predicate PartMakes(p: Part, b: Block) {
    match p
    case TextPart(text) => b == Text(text)
    case ImagePart(image) => image.Some? && b == Image(image.value.0, image.value.1)
    case ToolUsePart(_, name, input) => b.ToolUse? && b.name == name && b.input == input
    case ToolResultPart(id, output, isError) => b == ToolResult(id, output, if isError then "error" else "success")
    case OtherPart => false
  }

  /** The blocks come from parts, in the order of the parts and one from each at most. */
  predicate PartsMake(parts: seq<Part>, blocks: seq<Block>) {
    blocks == []
    || (parts != []
        && var p, b := |parts| - 1, |blocks| - 1;
           PartsMake(parts[..p], blocks) || (PartMakes(parts[p], blocks[b]) && PartsMake(parts[..p], blocks[..b])))
  }

  predicate CallMakes(c: ToolCall, b: Block) {
    b.ToolUse? && b.name == (if c.name == "" then "unknown_tool" else c.name) && b.input == c.input
  }

  predicate CallsMake(calls: seq<ToolCall>, blocks: seq<Block>) {
    blocks == []
    || (calls != []
        && var c, b := |calls| - 1, |blocks| - 1;
           CallsMake(calls[..c], blocks) || (CallMakes(calls[c], blocks[b]) && CallsMake(calls[..c], blocks[..b])))
  }

  /** First the blocks of the content, then those of the tool calls. */
  ghost predicate InOrder(t: Request, content: seq<Block>)
    requires t.Request?
  {
    if t.role == "tool" then |content| == 1 && content[0].ToolResult?
    else || content == [Text(" ")]
         || exists n :: && 0 <= n <= |content| && CallsMake(t.toolCalls, content[n..])
                        && match t.content
                           case StringContent(text) => content[..n] == [] || content[..n] == [Text(text)]
                           case PartsContent(parts) => PartsMake(parts, content[..n])
                           case OtherContent => n == 0
  }

  lemma {:induction false} PartsBlocksInOrder(parts: seq<Part>, skip: set<string>, answered: set<string>,
                                              supply: Supply, drawn: nat)
    ensures PartsMake(parts, PartsBlocks(parts, skip, answered, supply, drawn))
  {
    if parts != [] {
      var rest, p := parts[..|parts| - 1], parts[|parts| - 1];
      PartsBlocksInOrder(rest, skip, answered, supply, drawn);
      var before := PartsBlocks(rest, skip, answered, supply, drawn);
      var last := PartBlocks(p, skip, answered, supply, drawn + DrawsOf(rest));
      if last == [] {
        assert before + last == before;
      } else {
        assert last == [last[0]];
        assert (before + last)[..|before|] == before;
      }
    }
  }

  lemma {:induction false} CallsBlocksInOrder(s: CallState, calls: seq<ToolCall>, answered: set<string>, supply: Supply)
    ensures var blocks := AddCalls(s, calls, answered, supply).blocks;
            s.blocks <= blocks && CallsMake(calls, blocks[|s.blocks|..])
  {
    if calls != [] {
      var rest, call := calls[..|calls| - 1], calls[|calls| - 1];
      CallsBlocksInOrder(s, rest, answered, supply);
      var before, after := AddCalls(s, rest, answered, supply), AddCalls(s, calls, answered, supply);
      var n := |s.blocks|;
      if after.blocks != before.blocks {
        assert after.blocks[n..][..|after.blocks| - n - 1] == before.blocks[n..];
      }
    }
  }

  lemma ContentInOrder(content: Content, skip: set<string>, answered: set<string>, supply: Supply, drawn: nat)
    ensures var blocks := ContentBlocks(content, skip, answered, supply, drawn);
            match content
            case StringContent(text) => blocks == [] || blocks == [Text(text)]
            case PartsContent(parts) => PartsMake(parts, blocks)
            case OtherContent => blocks == []
  {
    if content.PartsContent? {
      PartsBlocksInOrder(content.parts, skip, answered, supply, drawn);
    }
  }

  lemma StepInOrder(st: State, m: Request, supply: Supply)
    requires Converts(m)
    ensures var out := Step(st, m, supply).out;
            |out| == |st.out| + 1 && out == st.out + [out[|st.out|]] && InOrder(m, out[|st.out|].content)
  {
    if m.role != "tool" {
      var blocks := ContentBlocks(m.content, CallIds(m.toolCalls), st.answered, supply, st.drawn);
      var s := CallState(blocks, st.pending, st.drawn + DrawsOf(PartsOf(m.content)));
      ContentInOrder(m.content, CallIds(m.toolCalls), st.answered, supply, st.drawn);
      CallsBlocksInOrder(s, m.toolCalls, st.answered, supply);
      var all := ChatState(st, m, supply).blocks;
      assert all == AddCalls(s, m.toolCalls, st.answered, supply).blocks;
      assert all[..|blocks|] == blocks;
    }
  }

  lemma {:induction false} RunInOrder(ms: seq<Request>, st: State, supply: Supply)
    requires st.out == []
    ensures var turns, out := Turns(ms), Run(st, ms, supply).out;
            && |out| == |turns|
            && forall j :: 0 <= j < |turns| ==> turns[j].Request? && InOrder(turns[j], out[j].content)
  {
    if ms != [] {
      var rest, m := ms[..|ms| - 1], ms[|ms| - 1];
      RunInOrder(rest, st, supply);
      if Converts(m) {
        StepInOrder(Run(st, rest, supply), m, supply);
      }
    }
  }

  /**
   * The blocks of each converted message stand in the order of its parts, one for each at most, followed by its
   * tool calls in theirs; a message of which nothing is left holds a single space.
   */
  lemma TurnsInOrder(ms: seq<Request>, supply: Supply)
    ensures var turns, out := Turns(ms), Convert(ms, supply);
            turns != [] ==>
              && |out| == |turns|
              && forall j :: 0 <= j < |turns| ==> turns[j].Request? && InOrder(turns[j], out[j].content)
  {
    RunInOrder(ms, Start(ms), supply);
  }

  // ---------------------------------------------------------------- results, end to end

  /** The results of one message; parts of assistant messages do not count. */
  function AnswerOf(t: Request, x: string): seq<Block> {
    if t.Request? && t.role != "assistant" then TurnResults(t, x) else []
  }

  /** What the request answers to `x`, in order. */
  function RequestResults(turns: seq<Request>, x: string): seq<Block> {
    if turns == [] then [] else RequestResults(turns[..|turns| - 1], x) + AnswerOf(turns[|turns| - 1], x)
  }

  lemma {:induction false} ResultsOfTurns(turns: seq<Request>, out: seq<Msg>, x: string)
    requires |out| == |turns|
    requires forall j :: 0 <= j < |turns| ==>
        && turns[j].Request? && out[j].role == (if turns[j].role == "assistant" then Assistant else User)
        && ResultsIn(out[j].content, x) == TurnResults(turns[j], x)
    ensures ResultsOf(out, x) == RequestResults(turns, x)
  {
    if turns != [] {
      ResultsOfTurns(turns[..|turns| - 1], out[..|out| - 1], x);
    }
  }

  lemma ConvertedResults(ms: seq<Request>, supply: Supply, x: string)
    requires NotGenerated(supply, x)
    ensures ResultsOf(Convert(ms, supply), x) == RequestResults(Turns(ms), x)
  {
    AnsweredAll(ms, x);
    RunStands(ms, Start(ms), supply, x);
    var turns, out := Turns(ms), Run(Start(ms), ms, supply).out;
    ResultsOfTurns(turns, out, x);
    if out == [] {
      ListLast([], Msg(User, [PLACEHOLDER]), x);
      OneBlock(PLACEHOLDER, x);
      assert [] + [Msg(User, [PLACEHOLDER])] == Convert(ms, supply);
    }
  }

  lemma AnsweredAll(ms: seq<Request>, x: string)
    ensures forall i :: 0 <= i < |ms| && x in AnswersIn(ms[i]) ==> x in AnsweredIds(ms)
  {
    AnsweredSomewhere(ms, x);
  }

  /**
   * The results for a caller's id that reach Bedrock are the first ones of the request, with their own outputs
   * and states, in order: as many as calls of the id are left.
   */
  lemma ConversationResults(ms: seq<Request>, supply: Supply, x: string)
    requires NotGenerated(supply, x)
    ensures var out, all := MessagesFromOpenAI(ms, supply), RequestResults(Turns(ms), x);
            Holders(out, x, |out|) <= |all| && ResultsOf(out, x) == all[..Holders(out, x, |out|)]
  {
    ConvertedResults(ms, supply, x);
    FirstResultsSurvive(Convert(ms, supply), x);
  }

  // ---------------------------------------------------------------- calls, end to end

  /** The calls of one message; those of user messages do not count. */
  function CallOf(t: Request, x: string): seq<Block> {
    if t.Request? && t.role == "assistant" then TurnCalls(t, x) else []
  }

  function RequestCalls(turns: seq<Request>, x: string): seq<Block> {
    if turns == [] then [] else RequestCalls(turns[..|turns| - 1], x) + CallOf(turns[|turns| - 1], x)
  }

  lemma {:induction false} CallsOfTurns(turns: seq<Request>, out: seq<Msg>, x: string)
    requires |out| == |turns|
    requires forall j :: 0 <= j < |turns| ==>
        && turns[j].Request? && out[j].role == (if turns[j].role == "assistant" then Assistant else User)
        && (UsesIn(out[j].content, x) == TurnCalls(turns[j], x) || UsesIn(out[j].content, x) == [])
    ensures IsPart(CallsOf(out, x), RequestCalls(turns, x))
  {
    if turns != [] {
      var n := |turns| - 1;
      CallsOfTurns(turns[..n], out[..n], x);
      var last := if out[n].role.Assistant? then UsesIn(out[n].content, x) else [];
      OneMorePart(CallsOf(out[..n], x), RequestCalls(turns[..n], x), last, CallOf(turns[n], x));
    }
  }

  /**
   * The calls of a caller's id that reach Bedrock are calls of the request, in order, each with the name and the
   * input it was made with.
   */
  lemma ConversationCalls(ms: seq<Request>, supply: Supply, x: string)
    requires NotGenerated(supply, x)
    ensures IsPart(CallsOf(MessagesFromOpenAI(ms, supply), x), RequestCalls(Turns(ms), x))
  {
    var turns, out := Turns(ms), Convert(ms, supply);
    TurnByTurn(ms, supply, x);
    if turns == [] {
      ListLast([], Msg(User, [PLACEHOLDER]), x);
      assert [] + out == out;
    } else {
      CallsOfTurns(turns, out, x);
    }
    CallsLeftAreCalls(out, x);
    PartOfPart(CallsOf(MessagesFromOpenAI(ms, supply), x), CallsOf(out, x), RequestCalls(turns, x));
  }
}
