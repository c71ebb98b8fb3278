/**
 * The ids that `messagesFromOpenAI` generates for blank ones. Each is drawn once, for a call or for an answer,
 * so nothing pairs it, and sanitising leaves none: a call and an answer that both came without an id are both
 * lost.
 */
module BedrockGeneratedIds {
  import opened Options
  import opened BedrockMessages
  import opened BedrockSanitizer
  import opened BedrockPairing
  import opened BedrockConversion
  import opened BedrockHistory

  ghost predicate Injective(supply: Supply) {
    forall a: nat, b: nat :: supply(a) == supply(b) ==> a == b
  }

  /** The caller's message has `x` as an id somewhere. */
  predicate Mentions(m: Request, x: string) {
    m.Request?
    && (m.toolCallId.key == Some(x) || x in CallIds(m.toolCalls)
        || x in UsesInParts(PartsOf(m.content)) || x in AnswersInParts(PartsOf(m.content)))
  }

  ghost predicate Apart(ms: seq<Request>, x: string) {
    forall i :: 0 <= i < |ms| ==> !Mentions(ms[i], x)
  }

  // ---------------------------------------------------------------- one message

  lemma PartDraws(p: Part, skip: set<string>, answered: set<string>, supply: Supply, drawn: nat, g: nat)
    requires Injective(supply)
    requires !(p.ToolUsePart? && p.useId.key == Some(supply(g)))
    requires !(p.ToolResultPart? && p.resultId.key == Some(supply(g)))
    ensures var blocks := PartBlocks(p, skip, answered, supply, drawn);
            && supply(g) !in ResultIds(blocks)
            && (supply(g) in UseIds(blocks) ==> drawn <= g < drawn + Draws(p))
  {
    var blocks := PartBlocks(p, skip, answered, supply, drawn);
    if blocks != [] {
      UseIdsOfOne(blocks[0]);
      assert blocks == [blocks[0]];
    }
  }

  lemma {:induction false} PartsDraws(parts: seq<Part>, skip: set<string>, answered: set<string>,
                                      supply: Supply, drawn: nat, g: nat)
    requires Injective(supply)
    requires supply(g) !in UsesInParts(parts) && supply(g) !in AnswersInParts(parts)
    ensures var blocks := PartsBlocks(parts, skip, answered, supply, drawn);
            && supply(g) !in ResultIds(blocks)
            && (supply(g) in UseIds(blocks) ==> drawn <= g < drawn + DrawsOf(parts))
  {
    if parts != [] {
      var rest, p := parts[..|parts| - 1], parts[|parts| - 1];
      PartsDraws(rest, skip, answered, supply, drawn, g);
      PartDraws(p, skip, answered, supply, drawn + DrawsOf(rest), g);
      UseIdsConcat(PartsBlocks(rest, skip, answered, supply, drawn),
                   PartBlocks(p, skip, answered, supply, drawn + DrawsOf(rest)));
    }
  }

  lemma ContentDraws(content: Content, skip: set<string>, answered: set<string>, supply: Supply,
                     drawn: nat, g: nat)
    requires Injective(supply)
    requires supply(g) !in UsesInParts(PartsOf(content)) && supply(g) !in AnswersInParts(PartsOf(content))
    ensures var blocks := ContentBlocks(content, skip, answered, supply, drawn);
            && supply(g) !in ResultIds(blocks)
            && (supply(g) in UseIds(blocks) ==> drawn <= g < drawn + DrawsOf(PartsOf(content)))
  {
    match content
    case PartsContent(parts) => PartsDraws(parts, skip, answered, supply, drawn, g);
    case StringContent(text) => UseIdsOfOne(Text(text));
    case OtherContent =>
  }

  lemma CallDraws(s: CallState, call: ToolCall, answered: set<string>, supply: Supply, g: nat)
    requires Injective(supply) && call.id.key != Some(supply(g))
    ensures var t := AddCall(s, call, answered, supply);
            && s.drawn <= t.drawn && ResultIds(t.blocks) == ResultIds(s.blocks)
            && (supply(g) in UseIds(t.blocks) ==> supply(g) in UseIds(s.blocks) || s.drawn <= g < t.drawn)
  {
    var t := AddCall(s, call, answered, supply);
    if t.blocks != s.blocks {
      var b := t.blocks[|s.blocks|];
      UseIdsConcat(s.blocks, [b]);
      UseIdsOfOne(b);
    }
  }

  lemma {:induction false} CallsDraw(s: CallState, calls: seq<ToolCall>, answered: set<string>,
                                     supply: Supply, g: nat)
    requires Injective(supply) && supply(g) !in CallIds(calls)
    ensures var t := AddCalls(s, calls, answered, supply);
            && s.drawn <= t.drawn && ResultIds(t.blocks) == ResultIds(s.blocks)
            && (supply(g) in UseIds(t.blocks) ==> supply(g) in UseIds(s.blocks) || s.drawn <= g < t.drawn)
  {
    if calls != [] {
      var rest, call := calls[..|calls| - 1], calls[|calls| - 1];
      CallsDraw(s, rest, answered, supply, g);
      CallDraws(AddCalls(s, rest, answered, supply), call, answered, supply, g);
    }
  }

  lemma ChatDraws(st: State, m: Request, supply: Supply, g: nat)
    requires Converts(m) && m.role != "tool" && Injective(supply) && !Mentions(m, supply(g))
    ensures var s := ChatState(st, m, supply);
            && st.drawn <= s.drawn && supply(g) !in ResultIds(s.blocks)
            && (supply(g) in UseIds(s.blocks) ==> st.drawn <= g < s.drawn)
  {
    ContentDraws(m.content, CallIds(m.toolCalls), st.answered, supply, st.drawn, g);
    var blocks := ContentBlocks(m.content, CallIds(m.toolCalls), st.answered, supply, st.drawn);
    CallsDraw(CallState(blocks, st.pending, st.drawn + DrawsOf(PartsOf(m.content))),
              m.toolCalls, st.answered, supply, g);
  }

  // ---------------------------------------------------------------- the whole request

  /** The id number `g` is not there before it is drawn, and is afterwards not both called and answered. */
  ghost predicate DrawnOnce(st: State, x: string, g: nat) {
    && (Holders(st.out, x, |st.out|) == 0 || Results(st.out, x, |st.out|) == 0)
    && (st.drawn <= g ==> Holders(st.out, x, |st.out|) == 0 && Results(st.out, x, |st.out|) == 0)
  }

  /** A message that draws `x` calls it or answers it; one that does not, does neither. */
  lemma StepDraws(st: State, m: Request, supply: Supply, g: nat)
    requires Converts(m) && Injective(supply) && !Mentions(m, supply(g))
    ensures var next := Step(st, m, supply);
            && st.drawn <= next.drawn && |next.out| == |st.out| + 1
            && next.out == st.out + [next.out[|st.out|]]
            && var last := next.out[|st.out|];
               && (Holds(last, supply(g)) ==> st.drawn <= g < next.drawn)
               && (ResultCount(last.content, supply(g)) > 0 ==> st.drawn <= g < next.drawn)
               && !(Holds(last, supply(g)) && ResultCount(last.content, supply(g)) > 0)
  {
    var last := Step(st, m, supply).out[|st.out|];
    ResultCountPositive(last.content, supply(g));
    if m.role == "tool" {
      UseIdsOfOne(last.content[0]);
      assert last.content == [last.content[0]];
    } else {
      ChatDraws(st, m, supply, g);
      NonEmptyIds(ChatState(st, m, supply).blocks);
    }
  }

  lemma StepDrawnOnce(st: State, m: Request, supply: Supply, g: nat)
    requires Injective(supply) && !Mentions(m, supply(g)) && DrawnOnce(st, supply(g), g)
    ensures DrawnOnce(Step(st, m, supply), supply(g), g)
  {
    if Converts(m) {
      StepDraws(st, m, supply, g);
      CountsLast(st.out, Step(st, m, supply).out[|st.out|], supply(g));
    }
  }

  lemma {:induction false} RunDrawnOnce(ms: seq<Request>, st: State, supply: Supply, g: nat)
    requires Injective(supply) && Apart(ms, supply(g)) && st.out == []
    ensures DrawnOnce(Run(st, ms, supply), supply(g), g)
  {
    if ms != [] {
      RunDrawnOnce(ms[..|ms| - 1], st, supply, g);
      StepDrawnOnce(Run(st, ms[..|ms| - 1], supply), ms[|ms| - 1], supply, g);
    }
  }

  /** What is never both called and answered is neither after sanitising. */
  lemma UnpairedVanish(ms: seq<Msg>, x: string)
    requires Holders(ms, x, |ms|) == 0 || Results(ms, x, |ms|) == 0
    ensures var out := Sanitize(ms); Holders(out, x, |out|) == 0 && Results(out, x, |out|) == 0
  {
    var merged := Merge(ms);
    MergeKeepsFresh(ms, x);
    SanitizedHolders(merged, x, |merged|);
    PermitsBelowHolders(merged, x, |merged|);
    PermitsBelowResults(merged, x, |merged|);
    CountingLaw(ms, x);
  }

  /**
   * With a generator that never repeats and stays apart from the caller's ids, no generated id is left: in the
   * converted conversation no assistant message calls it and no user message answers it.
   */
  lemma GeneratedIdsVanish(ms: seq<Request>, supply: Supply, g: nat)
    requires Injective(supply) && Apart(ms, supply(g))
    ensures var out := MessagesFromOpenAI(ms, supply);
            Holders(out, supply(g), |out|) == 0 && Results(out, supply(g), |out|) == 0
  {
    RunDrawnOnce(ms, Start(ms), supply, g);
    var out := Run(Start(ms), ms, supply).out;
    if out == [] {
      CountsLast([], Msg(User, [PLACEHOLDER]), supply(g));
      NonEmptyCount([], supply(g));
      assert [] + [Msg(User, [PLACEHOLDER])] == Convert(ms, supply);
    }
    UnpairedVanish(Convert(ms, supply), supply(g));
  }

  lemma NoneIsPaired(out: seq<Msg>, x: string)
    requires Holders(out, x, |out|) == 0 && Results(out, x, |out|) == 0
    ensures Paired(out, x)
  {
    forall i | 0 <= i < |out|
      ensures !Holds(out[i], x) && (out[i].role.User? ==> ResultCount(out[i].content, x) == 0)
    {
      CountsMonotone(out, x, i + 1, |out|);
    }
  }

  /**
   * Pairing for every id at once, generated ones included: when each of the caller's ids is called once and
   * not answered before, every call left has its one answer in the next message, and no other answer is left.
   */
  lemma EveryIdPaired(ms: seq<Request>, supply: Supply)
    requires Injective(supply) && forall g: nat :: Apart(ms, supply(g))
    requires forall x :: FreshRequest(ms, x)
    ensures forall x :: Paired(MessagesFromOpenAI(ms, supply), x)
  {
    forall x ensures Paired(MessagesFromOpenAI(ms, supply), x) {
      if g: nat :| supply(g) == x {
        GeneratedIdsVanish(ms, supply, g);
        NoneIsPaired(MessagesFromOpenAI(ms, supply), x);
      } else {
        ConversationPaired(ms, supply, x);
      }
    }
  }
}
