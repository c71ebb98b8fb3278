/**
 * What `messagesFromOpenAI` guarantees about the tool calls of a request, read off the request
 * itself: an id that is called once and not answered before comes out paired with its answer.
 */
module BedrockHistory {
  import opened Options
  import opened BedrockMessages
  import opened BedrockSanitizer
  import opened BedrockPairing
  import opened BedrockConversion
  import opened BedrockToolBlocks
  import opened BedrockTurns

  function UsesInParts(parts: seq<Part>): set<string> {
    if parts == [] then {}
    else
      var p := parts[|parts| - 1];
      UsesInParts(parts[..|parts| - 1])
      + if p.ToolUsePart? && p.useId.key.Some? then {p.useId.key.value} else {}
  }

  /** Message `m` calls tool id `x`, by a tool call or by a `tool_use` part. */
  predicate Calls(m: Request, x: string) {
    Converts(m) && m.role != "tool"
    && (x in CallIds(m.toolCalls) || x in UsesInParts(PartsOf(m.content)))
  }

  /** Message `m` becomes a user message that answers `x`. */
  predicate Answers(m: Request, x: string) {
    && Converts(m)
    && if m.role == "tool" then m.toolCallId.key == Some(x)
       else m.role != "assistant" && x in AnswersInParts(PartsOf(m.content))
  }

  /** `x` is called by one message at most, and not answered before that message. */
  ghost predicate FreshRequest(ms: seq<Request>, x: string) {
    forall i, j :: 0 <= i < |ms| && 0 <= j < |ms| && Calls(ms[i], x) ==>
      (i == j || !Calls(ms[j], x)) && (j < i ==> !Answers(ms[j], x))
  }

  // ---------------------------------------------------------------- one message

  lemma UseIdsConcat(a: seq<Block>, b: seq<Block>)
    ensures UseIds(a + b) == UseIds(a) + UseIds(b)
    ensures ResultIds(a + b) == ResultIds(a) + ResultIds(b)
  {
  }

  lemma UseIdsOfOne(b: Block)
    ensures UseIds([b]) == if UseIdOf(b).Some? then {UseIdOf(b).value} else {}
    ensures ResultIds([b]) == if ResultIdOf(b).Some? then {ResultIdOf(b).value} else {}
  {
    assert b in [b];
  }

  lemma PartIds(p: Part, skip: set<string>, answered: set<string>, supply: Supply, drawn: nat, x: string)
    requires NotGenerated(supply, x)
    ensures var blocks := PartBlocks(p, skip, answered, supply, drawn);
            && (x in UseIds(blocks) <==>
                  p.ToolUsePart? && p.useId.key == Some(x) && x !in skip && x in answered)
            && (x in ResultIds(blocks) <==> p.ToolResultPart? && p.resultId.key == Some(x))
  {
    var blocks := PartBlocks(p, skip, answered, supply, drawn);
    if blocks != [] {
      UseIdsOfOne(blocks[0]);
      assert blocks == [blocks[0]];
    }
  }

  lemma {:induction false} PartsIds(parts: seq<Part>, skip: set<string>, answered: set<string>,
                                    supply: Supply, drawn: nat, x: string)
    requires NotGenerated(supply, x)
    ensures var blocks := PartsBlocks(parts, skip, answered, supply, drawn);
            && (x in UseIds(blocks) <==> x in UsesInParts(parts) && x !in skip && x in answered)
            && (x in ResultIds(blocks) <==> x in AnswersInParts(parts))
  {
    if parts != [] {
      var rest, p := parts[..|parts| - 1], parts[|parts| - 1];
      PartsIds(rest, skip, answered, supply, drawn, x);
      PartIds(p, skip, answered, supply, drawn + DrawsOf(rest), x);
      UseIdsConcat(PartsBlocks(rest, skip, answered, supply, drawn),
                   PartBlocks(p, skip, answered, supply, drawn + DrawsOf(rest)));
    }
  }

  lemma CallStep(s: CallState, call: ToolCall, answered: set<string>, supply: Supply, x: string)
    requires NotGenerated(supply, x)
    ensures var t := AddCall(s, call, answered, supply);
            && ResultIds(t.blocks) == ResultIds(s.blocks)
            && (x in UseIds(t.blocks) <==>
                  x in UseIds(s.blocks) || (call.id.key == Some(x) && x !in s.pending && x in answered))
            && (x in t.pending <==> x in s.pending || (call.id.key == Some(x) && x in answered))
  {
    var t := AddCall(s, call, answered, supply);
    if t.blocks != s.blocks {
      var b := t.blocks[|s.blocks|];
      UseIdsConcat(s.blocks, [b]);
      UseIdsOfOne(b);
    }
  }

  lemma {:induction false} CallsIds(s: CallState, calls: seq<ToolCall>, answered: set<string>,
                                    supply: Supply, x: string)
    requires NotGenerated(supply, x)
    ensures var t := AddCalls(s, calls, answered, supply);
            && ResultIds(t.blocks) == ResultIds(s.blocks)
            && (x in UseIds(t.blocks) <==>
                  x in UseIds(s.blocks) || (x in CallIds(calls) && x !in s.pending && x in answered))
            && (x in t.pending <==> x in s.pending || (x in CallIds(calls) && x in answered))
  {
    if calls != [] {
      var rest, call := calls[..|calls| - 1], calls[|calls| - 1];
      CallsIds(s, rest, answered, supply, x);
      CallStep(AddCalls(s, rest, answered, supply), call, answered, supply, x);
    }
  }

  /** A call of `x` in `m` is passed on: it is answered, and no call of `x` is still pending. */
  predicate KeepsCall(st: State, m: Request, x: string)
    requires Converts(m)
  {
    && x in st.answered
    && if x in CallIds(m.toolCalls) then x !in st.pending else x in UsesInParts(PartsOf(m.content))
  }

  /** Exactly which ids the converted message calls and answers. */
  lemma ChatIds(st: State, m: Request, supply: Supply, x: string)
    requires Converts(m) && m.role != "tool" && NotGenerated(supply, x)
    ensures var s := ChatState(st, m, supply);
            && (x in UseIds(s.blocks) <==> KeepsCall(st, m, x))
            && (x in ResultIds(s.blocks) <==> x in AnswersInParts(PartsOf(m.content)))
            && (x in s.pending <==> x in st.pending || (x in CallIds(m.toolCalls) && x in st.answered))
  {
    ContentIds(m.content, CallIds(m.toolCalls), st.answered, supply, st.drawn, x);
    var blocks := ContentBlocks(m.content, CallIds(m.toolCalls), st.answered, supply, st.drawn);
    CallsIds(CallState(blocks, st.pending, st.drawn + DrawsOf(PartsOf(m.content))),
             m.toolCalls, st.answered, supply, x);
  }

  lemma ContentIds(content: Content, skip: set<string>, answered: set<string>, supply: Supply,
                   drawn: nat, x: string)
    requires NotGenerated(supply, x)
    ensures var blocks := ContentBlocks(content, skip, answered, supply, drawn);
            && (x in UseIds(blocks) <==> x in UsesInParts(PartsOf(content)) && x !in skip && x in answered)
            && (x in ResultIds(blocks) <==> x in AnswersInParts(PartsOf(content)))
  {
    match content
    case PartsContent(parts) =>
      PartsIds(parts, skip, answered, supply, drawn, x);
    case StringContent(text) =>
      UseIdsOfOne(Text(text));
    case OtherContent =>
  }

  lemma NonEmptyIds(content: seq<Block>)
    ensures UseIds(NonEmpty(content)) == UseIds(content)
    ensures ResultIds(NonEmpty(content)) == ResultIds(content)
  {
  }

  // ---------------------------------------------------------------- the whole request

  /** A converted message holds a call of `x`, or answers it, only if the request message does. */
  lemma StepIds(st: State, m: Request, supply: Supply, x: string)
    requires Converts(m) && NotGenerated(supply, x)
    ensures var next := Step(st, m, supply);
            && |next.out| == |st.out| + 1 && next.out == st.out + [next.out[|st.out|]]
            && (Holds(next.out[|st.out|], x) ==> Calls(m, x))
            && (next.out[|st.out|].role.User? ==>
                  (ResultCount(next.out[|st.out|].content, x) > 0 ==> Answers(m, x)))
            && (x in next.pending ==> x in st.pending || Calls(m, x))
            && st.answered <= next.answered
  {
    var next := Step(st, m, supply);
    var last := next.out[|st.out|];
    ResultCountPositive(last.content, x);
    if m.role == "tool" {
      UseIdsOfOne(last.content[0]);
      assert last.content == [last.content[0]];
    } else {
      ChatIds(st, m, supply, x);
      NonEmptyIds(ChatState(st, m, supply).blocks);
    }
  }

  ghost predicate SomeCalls(ms: seq<Request>, x: string) {
    exists i :: 0 <= i < |ms| && Calls(ms[i], x)
  }

  ghost predicate SomeAnswers(ms: seq<Request>, x: string) {
    exists i :: 0 <= i < |ms| && Answers(ms[i], x)
  }

  lemma {:induction false} RunFresh(ms: seq<Request>, st: State, supply: Supply, x: string)
    requires FreshRequest(ms, x) && NotGenerated(supply, x)
    requires st.out == [] && x !in st.pending
    ensures var end := Run(st, ms, supply);
            && Fresh(end.out, x) && st.answered <= end.answered
            && (Holders(end.out, x, |end.out|) > 0 ==> SomeCalls(ms, x))
            && (Results(end.out, x, |end.out|) > 0 ==> SomeAnswers(ms, x))
            && (x in end.pending ==> SomeCalls(ms, x))
  {
    if ms != [] {
      var rest, m := ms[..|ms| - 1], ms[|ms| - 1];
      assert ms == rest + [m];
      RunFresh(rest, st, supply, x);
      FreshRest(rest, m, x);
      StepFresh(Run(st, rest, supply), m, supply, x);
    }
  }

  lemma StepFresh(st: State, m: Request, supply: Supply, x: string)
    requires Fresh(st.out, x) && NotGenerated(supply, x)
    requires Calls(m, x) ==> Holders(st.out, x, |st.out|) == 0 && Results(st.out, x, |st.out|) == 0
    ensures var next := Step(st, m, supply);
            && Fresh(next.out, x) && st.answered <= next.answered
            && (Holders(next.out, x, |next.out|) > 0 ==> Holders(st.out, x, |st.out|) > 0 || Calls(m, x))
            && (Results(next.out, x, |next.out|) > 0 ==> Results(st.out, x, |st.out|) > 0 || Answers(m, x))
            && (x in next.pending ==> x in st.pending || Calls(m, x))
  {
    if Converts(m) {
      StepIds(st, m, supply, x);
      var last := Step(st, m, supply).out[|st.out|];
      CountsLast(st.out, last, x);
      FreshAppend(st.out, last, x);
    }
  }

  lemma FreshRest(rest: seq<Request>, m: Request, x: string)
    requires FreshRequest(rest + [m], x)
    ensures Calls(m, x) ==> !SomeCalls(rest, x) && !SomeAnswers(rest, x)
    ensures SomeCalls(rest + [m], x) <==> SomeCalls(rest, x) || Calls(m, x)
    ensures SomeAnswers(rest + [m], x) <==> SomeAnswers(rest, x) || Answers(m, x)
  {
    var ms := rest + [m];
    assert ms[|rest|] == m;
    forall i | 0 <= i < |rest| ensures ms[i] == rest[i] {
    }
    if i :| 0 <= i < |ms| && Answers(ms[i], x) {
      assert i < |rest| ==> Answers(rest[i], x);
    }
    if i :| 0 <= i < |rest| && Answers(rest[i], x) {
      assert Answers(ms[i], x);
    }
    if i :| 0 <= i < |rest| && Calls(rest[i], x) {
      assert Calls(ms[i], x);
    }
  }

  lemma FreshConvert(ms: seq<Request>, supply: Supply, x: string)
    requires FreshRequest(ms, x) && NotGenerated(supply, x)
    ensures Fresh(Convert(ms, supply), x)
  {
    RunFresh(ms, Start(ms), supply, x);
    if Run(Start(ms), ms, supply).out == [] {
      assert [] + [Msg(User, [PLACEHOLDER])] == Convert(ms, supply);
      FreshAppend([], Msg(User, [PLACEHOLDER]), x);
    }
  }

  /**
   * For a caller's id that is called once and not answered before: in the converted conversation
   * each call of it has exactly one result, in the very next message, and no other result is left.
   */
  lemma ConversationPaired(ms: seq<Request>, supply: Supply, x: string)
    requires FreshRequest(ms, x) && NotGenerated(supply, x)
    ensures Paired(MessagesFromOpenAI(ms, supply), x)
  {
    FreshConvert(ms, supply, x);
    FreshIdsArePaired(Convert(ms, supply), x);
  }

  // ---------------------------------------------------------------- answered calls survive

  lemma {:induction false} RunExtends(st: State, a: seq<Request>, b: seq<Request>, supply: Supply)
    ensures Run(st, a + b, supply) == Run(Run(st, a, supply), b, supply)
    ensures st.out <= Run(st, a, supply).out
  {
    if b != [] {
      RunExtends(st, a, b[..|b| - 1], supply);
      assert (a + b)[..|a + b| - 1] == a + b[..|b| - 1];
    } else {
      assert a + b == a;
      if a != [] {
        RunExtends(st, a[..|a| - 1], [], supply);
        assert a[..|a| - 1] + [] == a[..|a| - 1];
      }
    }
  }

  lemma {:induction false} AnsweredIdsContain(ms: seq<Request>, i: nat, x: string)
    requires i < |ms| && x in AnswersIn(ms[i])
    ensures x in AnsweredIds(ms)
  {
    if i < |ms| - 1 {
      AnsweredIdsContain(ms[..|ms| - 1], i, x);
    }
  }

  lemma AnswererAnswers(st: State, t: Request, supply: Supply, x: string)
    requires Answers(t, x) && NotGenerated(supply, x)
    ensures var last := Step(st, t, supply).out[|st.out|];
            last.role.User? && x in ResultIds(last.content)
  {
    var last := Step(st, t, supply).out[|st.out|];
    if t.role == "tool" {
      UseIdsOfOne(last.content[0]);
      assert last.content == [last.content[0]];
    } else {
      ChatIds(st, t, supply, x);
      NonEmptyIds(ChatState(st, t, supply).blocks);
    }
  }

  lemma CallerHolds(st: State, a: Request, supply: Supply, x: string)
    requires Calls(a, x) && a.role == "assistant" && NotGenerated(supply, x)
    requires x in st.answered && x !in st.pending
    ensures Holds(Step(st, a, supply).out[|st.out|], x)
  {
    ChatIds(st, a, supply, x);
    NonEmptyIds(ChatState(st, a, supply).blocks);
  }

  // ---------------------------------------------------------------- with their contents

  lemma TurnsLast(ms: seq<Request>, m: Request)
    ensures Turns(ms + [m]) == Turns(ms) + if Converts(m) then [m] else []
  {
    assert (ms + [m])[..|ms|] == ms;
  }

  lemma {:induction false} TurnsConcat(a: seq<Request>, b: seq<Request>)
    ensures Turns(a + b) == Turns(a) + Turns(b)
  {
    if b == [] {
      assert a + b == a;
    } else {
      var init, last := b[..|b| - 1], b[|b| - 1];
      assert a + b == (a + init) + [last] && b == init + [last];
      TurnsConcat(a, init);
      TurnsLast(a + init, last);
      TurnsLast(init, last);
    }
  }

  lemma RequestResultsLast(turns: seq<Request>, m: Request, x: string)
    ensures RequestResults(turns + [m], x) == RequestResults(turns, x) + AnswerOf(m, x)
  {
    assert (turns + [m])[..|turns|] == turns;
  }

  /** Later turns add results at the end. */
  lemma {:induction false} RequestResultsPrefix(turns: seq<Request>, n: nat, x: string)
    requires n <= |turns|
    ensures RequestResults(turns[..n], x) <= RequestResults(turns, x)
  {
    if n == |turns| {
      assert turns[..n] == turns;
    } else {
      RequestResultsPrefix(turns[..|turns| - 1], n, x);
      assert turns[..|turns| - 1][..n] == turns[..n];
    }
  }

  lemma {:induction false} PartsHold(parts: seq<Part>, x: string)
    ensures PartResults(parts, x) != [] <==> x in AnswersInParts(parts)
    ensures PartCalls(parts, x) != [] <==> x in UsesInParts(parts)
  {
    if parts != [] {
      PartsHold(parts[..|parts| - 1], x);
    }
  }

  /** A message answers and calls `x` exactly when it has a result for it and a call of it. */
  lemma TurnHolds(m: Request, x: string)
    requires Converts(m)
    ensures Answers(m, x) <==> m.role != "assistant" && TurnResults(m, x) != []
    ensures Calls(m, x) <==> TurnCalls(m, x) != []
  {
    PartsHold(PartsOf(m.content), x);
    HasCallIds(m.toolCalls, x);
  }

  lemma {:induction false} NoResults(ms: seq<Request>, x: string)
    requires !SomeAnswers(ms, x)
    ensures RequestResults(Turns(ms), x) == []
  {
    if ms != [] {
      var rest, m := ms[..|ms| - 1], ms[|ms| - 1];
      assert forall i :: 0 <= i < |rest| ==> rest[i] == ms[i];
      assert !Answers(ms[|rest|], x);
      NoResults(rest, x);
      if Converts(m) {
        TurnHolds(m, x);
        RequestResultsLast(Turns(rest), m, x);
        assert Turns(ms) == Turns(rest) + [m] && AnswerOf(m, x) == [];
      } else {
        assert Turns(ms) == Turns(rest);
      }
    }
  }

  lemma NoneBeforeCaller(before: seq<Request>, a: Request, more: seq<Request>, x: string)
    requires FreshRequest(before + [a] + more, x) && Calls(a, x)
    ensures !SomeCalls(before, x) && !SomeAnswers(before, x) && !SomeCalls(more, x)
  {
    var ms := before + [a] + more;
    assert ms[|before|] == a;
    assert forall i :: 0 <= i < |before| ==> ms[i] == before[i];
    assert forall i :: 0 <= i < |more| ==> ms[|before| + 1 + i] == more[i];
  }

  lemma TurnsAround(before: seq<Request>, a: Request, t: Request, after: seq<Request>)
    requires Converts(a) && Converts(t)
    ensures Turns(before + [a] + ([t] + after)) == Turns(before) + [a] + ([t] + Turns(after))
  {
    TurnsConcat(before + [a], [t] + after);
    TurnsConcat([t], after);
    TurnsLast(before, a);
    TurnsLast([], t);
    assert [] + [t] == [t];
  }

  lemma LeadingResults(turns: seq<Request>, a: Request, t: Request, more: seq<Request>, x: string)
    requires RequestResults(turns, x) == [] && AnswerOf(a, x) == []
    ensures AnswerOf(t, x) <= RequestResults(turns + [a] + ([t] + more), x)
  {
    var n, all := |turns| + 2, turns + [a] + ([t] + more);
    RequestResultsLast(turns, a, x);
    RequestResultsLast(turns + [a], t, x);
    assert all[..n] == turns + [a] + [t];
    RequestResultsPrefix(all, n, x);
  }

  /** The first result in the request is the first that the answering message holds. */
  lemma FirstResult(before: seq<Request>, a: Request, t: Request, after: seq<Request>, x: string)
    requires FreshRequest(before + [a] + ([t] + after), x)
    requires Calls(a, x) && a.role == "assistant" && Answers(t, x)
    ensures TurnResults(t, x) != []
    ensures TurnResults(t, x) <= RequestResults(Turns(before + [a] + ([t] + after)), x)
  {
    NoneBeforeCaller(before, a, [t] + after, x);
    NoResults(before, x);
    TurnsAround(before, a, t, after);
    LeadingResults(Turns(before), a, t, Turns(after), x);
    TurnHolds(t, x);
  }

  lemma {:induction false} SoleCaller(out: seq<Msg>, p: nat, x: string)
    requires p < |out| && out[p].role.Assistant?
    requires forall j :: 0 <= j < |out| && j != p ==> UsesIn(out[j].content, x) == []
    ensures CallsOf(out, x) == UsesIn(out[p].content, x)
  {
    var rest, m := out[..|out| - 1], out[|out| - 1];
    if p < |rest| {
      SoleCaller(rest, p, x);
    } else {
      NoCaller(rest, x);
    }
  }

  lemma {:induction false} NoCaller(out: seq<Msg>, x: string)
    requires forall j :: 0 <= j < |out| ==> UsesIn(out[j].content, x) == []
    ensures CallsOf(out, x) == []
  {
    if out != [] {
      NoCaller(out[..|out| - 1], x);
    }
  }

  lemma {:induction false} NoCalls(ms: seq<Request>, x: string, j: nat)
    requires !SomeCalls(ms, x) && j < |Turns(ms)|
    ensures Converts(Turns(ms)[j]) && TurnCalls(Turns(ms)[j], x) == []
  {
    var rest, m := ms[..|ms| - 1], ms[|ms| - 1];
    assert forall i :: 0 <= i < |rest| ==> rest[i] == ms[i];
    assert rest + [m] == ms;
    TurnsLast(rest, m);
    if j < |Turns(rest)| {
      NoCalls(rest, x, j);
    } else {
      TurnHolds(m, x);
    }
  }

  lemma NothingPending(turns: seq<Request>, x: string, j: nat)
    requires j <= |turns| && forall i :: 0 <= i < j ==> turns[i].Request? && TurnCalls(turns[i], x) == []
    ensures !Pending(turns, x, j)
  {
  }

  /** All turns but the one at place `p` call nothing. */
  ghost predicate SoleCall(turns: seq<Request>, p: nat, x: string) {
    forall j :: 0 <= j < |turns| && j != p ==> turns[j].Request? && TurnCalls(turns[j], x) == []
  }

  lemma AroundCaller(before: seq<Request>, a: Request, more: seq<Request>, x: string)
    requires !SomeCalls(before, x) && !SomeCalls(more, x)
    ensures SoleCall(Turns(before) + [a] + Turns(more), |Turns(before)|, x)
  {
    var turns, p := Turns(before) + [a] + Turns(more), |Turns(before)|;
    forall j | 0 <= j < |turns| && j != p ensures turns[j].Request? && TurnCalls(turns[j], x) == [] {
      if j < p {
        NoCalls(before, x, j);
      } else {
        NoCalls(more, x, j - p - 1);
      }
    }
  }

  /** Where the one calling message stands among the turns. */
  lemma CallerPlace(before: seq<Request>, a: Request, more: seq<Request>, x: string)
    requires FreshRequest(before + [a] + more, x) && Calls(a, x)
    ensures var turns, p := Turns(before + [a] + more), |Turns(before)|;
            p < |turns| && turns[p] == a && SoleCall(turns, p, x)
  {
    NoneBeforeCaller(before, a, more, x);
    TurnsConcat(before + [a], more);
    TurnsLast(before, a);
    AroundCaller(before, a, more, x);
  }

  lemma ConvertedCalls(before: seq<Request>, a: Request, more: seq<Request>, supply: Supply, x: string)
    requires FreshRequest(before + [a] + more, x) && NotGenerated(supply, x)
    requires Calls(a, x) && a.role == "assistant" && SomewhereAnswered(before + [a] + more, x)
    ensures CallsOf(Convert(before + [a] + more, supply), x) == TurnCalls(a, x)
  {
    var ms := before + [a] + more;
    var turns, p, out := Turns(ms), |Turns(before)|, Convert(ms, supply);
    CallerPlace(before, a, more, x);
    TurnByTurn(ms, supply, x);
    NothingPending(turns, x, p);
    forall j | 0 <= j < |out| && j != p ensures UsesIn(out[j].content, x) == [] {
      assert Becomes(turns[j], out[j], x, SomewhereAnswered(ms, x) && Passes(turns, x, j));
    }
    SoleCaller(out, p, x);
  }

  lemma KeptHolders(ms: seq<Msg>, x: string)
    ensures Holders(Sanitize(ms), x, |Sanitize(ms)|) <= Holders(ms, x, |ms|)
  {
    MergeKeepsFresh(ms, x);
    SanitizedHolders(Merge(ms), x, |Merge(ms)|);
    PermitsBelowHolders(Merge(ms), x, |Merge(ms)|);
  }

  /**
   * Nothing answered is dropped: a fresh call whose answer is the next message of the request is still there
   * afterwards, by itself. It has the name and input it was made with, and its one result is the first that the
   * answering message holds: for a tool message, that message's own output.
   */
  lemma AnsweredCallReachesBedrock(before: seq<Request>, a: Request, t: Request, after: seq<Request>,
                                   supply: Supply, x: string)
    requires FreshRequest(before + [a] + ([t] + after), x) && NotGenerated(supply, x)
    requires Calls(a, x) && a.role == "assistant" && Answers(t, x)
    ensures var out := MessagesFromOpenAI(before + [a] + ([t] + after), supply);
            && Holders(out, x, |out|) == 1 && Results(out, x, |out|) == 1
            && CallsOf(out, x) == TurnCalls(a, x)
            && TurnResults(t, x) != [] && ResultsOf(out, x) == [TurnResults(t, x)[0]]
    ensures t.role == "tool" ==>
              ResultsOf(MessagesFromOpenAI(before + [a] + ([t] + after), supply), x)
              == [ToolResult(ToolId(x, Some(x)), t.output, "success")]
  {
    var ms := before + [a] + ([t] + after);
    OneCallLeft(before, a, t, after, supply, x);
    ConversationResults(ms, supply, x);
    FirstResult(before, a, t, after, x);
    CallReaches(before, a, [t] + after, supply, x);
  }

  lemma OneCallLeft(before: seq<Request>, a: Request, t: Request, after: seq<Request>, supply: Supply, x: string)
    requires FreshRequest(before + [a] + ([t] + after), x) && NotGenerated(supply, x)
    requires Calls(a, x) && a.role == "assistant" && Answers(t, x)
    ensures var out := MessagesFromOpenAI(before + [a] + ([t] + after), supply);
            Holders(out, x, |out|) == 1 && Results(out, x, |out|) == 1
  {
    var ms := before + [a] + ([t] + after);
    var s0, call, answer, more := RunThrough(before, a, t, after, supply, x);
    AnsweredCallSurvives(s0, call, answer, more, x);
    OneHolder(ms, supply, x);
    ConversationCounts(ms, supply, x);
  }

  lemma CallReaches(before: seq<Request>, a: Request, more: seq<Request>, supply: Supply, x: string)
    requires FreshRequest(before + [a] + more, x) && NotGenerated(supply, x)
    requires Calls(a, x) && a.role == "assistant" && more != [] && Answers(more[0], x)
    requires var out := MessagesFromOpenAI(before + [a] + more, supply); Holders(out, x, |out|) == 1
    ensures CallsOf(MessagesFromOpenAI(before + [a] + more, supply), x) == TurnCalls(a, x)
  {
    var ms := before + [a] + more;
    assert ms[|before| + 1] == more[0];
    ConvertedCalls(before, a, more, supply, x);
    FreshConvert(ms, supply, x);
    KeptHolders(Convert(ms, supply), x);
    AllCallsSurvive(Convert(ms, supply), x);
  }

  /** The call and its answer become neighbours in the converted conversation. */
  lemma RunThrough(before: seq<Request>, a: Request, t: Request, after: seq<Request>,
                   supply: Supply, x: string)
    returns (prior: seq<Msg>, call: Msg, answer: Msg, more: seq<Msg>)
    requires FreshRequest(before + [a] + ([t] + after), x) && NotGenerated(supply, x)
    requires Calls(a, x) && a.role == "assistant" && Answers(t, x)
    ensures Convert(before + [a] + ([t] + after), supply) == prior + [call, answer] + more
    ensures Holds(call, x) && answer.role.User? && x in ResultIds(answer.content)
  {
    var ms := before + [a] + ([t] + after);
    var st := Start(ms);
    assert ms == before + [a, t] + after && ms[|before| + 1] == t;
    AnsweredIdsContain(ms, |before| + 1, x);
    CallerIsFirst(before, a, t, after, x);
    RunFresh(before, st, supply, x);
    var s0 := Run(st, before, supply);
    var s1 := Step(s0, a, supply);
    CallerHolds(s0, a, supply, x);
    AnswererAnswers(s1, t, supply, x);
    more := RunRest(st, before, a, t, after, supply);
    prior, call, answer := s0.out, s1.out[|s0.out|], Step(s1, t, supply).out[|s1.out|];
  }

  lemma RunRest(st: State, before: seq<Request>, a: Request, t: Request, after: seq<Request>, supply: Supply)
    returns (more: seq<Msg>)
    requires Converts(a) && Converts(t)
    ensures var s0 := Run(st, before, supply);
            var s1 := Step(s0, a, supply);
            var s2 := Step(s1, t, supply);
            && s2.out == s0.out + [s1.out[|s0.out|], s2.out[|s1.out|]]
            && Run(st, before + [a, t] + after, supply).out == s2.out + more
  {
    var s0 := Run(st, before, supply);
    var s2 := Step(Step(s0, a, supply), t, supply);
    TwoSteps(s0, a, t, supply);
    RunExtends(st, before, [a, t], supply);
    RunExtends(st, before + [a, t], after, supply);
    RunExtends(s2, after, [], supply);
    var end := Run(s2, after, supply);
    more := end.out[|s2.out|..];
    assert end.out == s2.out + more;
    OneMessage(s0, a, supply);
    OneMessage(Step(s0, a, supply), t, supply);
  }

  lemma OneMessage(st: State, m: Request, supply: Supply)
    requires Converts(m)
    ensures var out := Step(st, m, supply).out; |out| == |st.out| + 1 && out == st.out + [out[|st.out|]]
  {
  }

  lemma TwoSteps(st: State, a: Request, t: Request, supply: Supply)
    ensures Run(st, [a, t], supply) == Step(Step(st, a, supply), t, supply)
  {
    assert [a][..0] == [];
    assert Run(st, [a], supply) == Step(st, a, supply);
    assert [a, t][..1] == [a];
  }

  lemma CallerIsFirst(before: seq<Request>, a: Request, t: Request, after: seq<Request>, x: string)
    requires FreshRequest(before + [a] + ([t] + after), x) && Calls(a, x)
    ensures FreshRequest(before, x) && !SomeCalls(before, x)
  {
    var ms := before + [a] + ([t] + after);
    assert ms[|before|] == a;
    assert forall i :: 0 <= i < |before| ==> ms[i] == before[i];
  }

  lemma OneHolder(ms: seq<Request>, supply: Supply, x: string)
    requires FreshRequest(ms, x) && NotGenerated(supply, x)
    ensures var out := MessagesFromOpenAI(ms, supply); Holders(out, x, |out|) <= 1
  {
    var merged := Merge(Convert(ms, supply));
    FreshConvert(ms, supply, x);
    MergeKeepsFresh(Convert(ms, supply), x);
    assert MessagesFromOpenAI(ms, supply) == SanitizeMerged(merged);
    SanitizedHolders(merged, x, |merged|);
    PermitsBelowHolders(merged, x, |merged|);
    assert Fresh(merged, x);
  }
}
