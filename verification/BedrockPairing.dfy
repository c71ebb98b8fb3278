/**
 * What sanitising promises of one id: the counting law, the exact condition for positional pairing, and that
 * answered calls survive.
 */
module BedrockPairing {
  import opened Integers
  import opened Options
  import opened BedrockMessages
  import opened BedrockSanitizer

  // ---------------------------------------------------------------- counting law

  lemma {:induction false} FilterUsesIds(content: seq<Block>, allowed: set<string>)
    ensures UseIds(FilterUses(content, allowed)) == UseIds(content) * allowed
  {
    if content != [] {
      var b := content[|content| - 1];
      var rest := content[..|content| - 1];
      FilterUsesIds(rest, allowed);
      assert content == rest + [b];
      var f := FilterUses(rest, allowed);
      forall x ensures x in UseIds(content) <==> x in UseIds(rest) || UseIdOf(b) == Some(x) {
      }
      forall x ensures x in UseIds(f + [b]) <==> x in UseIds(f) || UseIdOf(b) == Some(x) {
        assert b in f + [b];
      }
      assert f + [] == f;
    }
  }

  /** After sanitising, an assistant message calls exactly the ids that were answered. */
  lemma SanitizedHolds(ms: seq<Msg>, x: string, i: nat)
    requires i < |ms|
    ensures Holds(SanitizedMsg(ms, i), x) <==> Answered(ms, x, i)
  {
    FilterUsesIds(ms[i].content, AllowedIds(ms, i));
  }

  lemma {:induction false} SanitizedHolders(ms: seq<Msg>, x: string, n: nat)
    requires n <= |ms|
    ensures Holders(SanitizeMerged(ms), x, n) == Permits(ms, x, n)
  {
    if n > 0 {
      SanitizedHolders(ms, x, n - 1);
      SanitizedHolds(ms, x, n - 1);
    }
  }

  lemma {:induction false} KeptCount(content: seq<Block>, spare: string -> int, x: string)
    ensures ResultCount(KeepFirst(content, spare), x)
            == Min(ResultCount(content, x), Max(spare(x), 0))
  {
    if content != [] {
      var rest, b := content[..|content| - 1], content[|content| - 1];
      KeptCount(rest, spare, x);
      var kept := KeepFirst(rest, spare);
      if Affordable(rest, b, spare) {
        ResultCountLast(kept, b, x);
      } else {
        assert kept + [] == kept;
      }
    }
  }

  lemma NonEmptyCount(content: seq<Block>, x: string)
    ensures ResultCount(NonEmpty(content), x) == ResultCount(content, x)
  {
    if content == [] {
      ResultCountLast([], PLACEHOLDER, x);
      assert [] + [PLACEHOLDER] == NonEmpty(content);
    }
  }

  /** Of the answers to `x`, exactly the first ones survive, as many as there are permits. */
  lemma {:induction false} SanitizedResults(ms: seq<Msg>, x: string, n: nat)
    requires n <= |ms|
    ensures Results(SanitizeMerged(ms), x, n) == Min(Results(ms, x, n), Permits(ms, x, |ms|))
  {
    if n > 0 {
      SanitizedResults(ms, x, n - 1);
      if ms[n - 1].role.User? {
        SanitizedMsgResults(ms, x, n - 1);
      }
    }
  }

  lemma SanitizedMsgResults(ms: seq<Msg>, x: string, j: nat)
    requires j < |ms| && ms[j].role.User?
    ensures ResultCount(SanitizedMsg(ms, j).content, x)
            == Min(ResultCount(ms[j].content, x), Max(Permits(ms, x, |ms|) - Results(ms, x, j), 0))
  {
    KeptCount(ms[j].content, Spare(ms, j), x);
    NonEmptyCount(KeepFirst(ms[j].content, Spare(ms, j)), x);
  }

  /** Pigeonhole from the front: the answered calls among the first `n` have distinct next messages. */
  lemma {:induction false} PermitsBelowResults(ms: seq<Msg>, x: string, n: nat)
    requires n <= |ms|
    ensures Permits(ms, x, n) <= Results(ms, x, Min(n + 1, |ms|))
  {
    if n > 0 {
      PermitsBelowResults(ms, x, n - 1);
      CountsMonotone(ms, x, n, Min(n + 1, |ms|));
      if Answered(ms, x, n - 1) {
        ResultCountPositive(ms[n].content, x);
        PermitsStepResults(ms, x, n - 1);
      }
    }
  }

  lemma PermitsStepResults(ms: seq<Msg>, x: string, i: nat)
    requires i < |ms| && Answered(ms, x, i)
    ensures i + 1 < |ms| && Results(ms, x, i + 2) >= Results(ms, x, i + 1) + 1
    ensures Results(ms, x, i + 1) == Results(ms, x, i)
  {
    ResultCountPositive(ms[i + 1].content, x);
  }

  /** The same pigeonhole from the back. */
  lemma {:induction false} LatePermitsBelowResults(ms: seq<Msg>, x: string, n: nat)
    requires n < |ms|
    ensures Permits(ms, x, |ms|) - Permits(ms, x, n)
            <= Results(ms, x, |ms|) - Results(ms, x, n + 1)
    decreases |ms| - n
  {
    if n + 1 < |ms| {
      LatePermitsBelowResults(ms, x, n + 1);
      if Answered(ms, x, n) {
        PermitsStepResults(ms, x, n);
      }
      CountsMonotone(ms, x, n + 1, n + 2);
    }
  }

  /**
   * The counting law. For every message list and every id, the answers that are left are exactly as
   * many as the assistant messages that still call it.
   */
  lemma CountingLaw(ms: seq<Msg>, x: string)
    ensures var out := Sanitize(ms); Results(out, x, |out|) == Holders(out, x, |out|)
  {
    var merged := Merge(ms);
    SanitizedHolders(merged, x, |merged|);
    SanitizedResults(merged, x, |merged|);
    PermitsBelowResults(merged, x, |merged|);
  }

  // ---------------------------------------------------------------- pairing

  /** Pairing, said in prefix counts: each answer comes one message after its call. */
  ghost predicate Shifted(out: seq<Msg>, x: string) {
    forall j :: 0 <= j < |out| ==> Results(out, x, j + 1) == Holders(out, x, j)
  }

  lemma PairedMeansShifted(out: seq<Msg>, x: string)
    requires Results(out, x, |out|) == Holders(out, x, |out|)
    ensures Paired(out, x) <==> Shifted(out, x)
  {
    if Paired(out, x) {
      forall j | 0 <= j < |out| ensures Results(out, x, j + 1) == Holders(out, x, j) {
        PairedShift(out, x, j);
      }
    }
    if Shifted(out, x) {
      ShiftedPairs(out, x);
    }
  }

  lemma {:induction false} PairedShift(out: seq<Msg>, x: string, j: nat)
    requires Paired(out, x) && j < |out|
    ensures Results(out, x, j + 1) == Holders(out, x, j)
  {
    if j > 0 {
      PairedShift(out, x, j - 1);
    } else {
      assert Results(out, x, 0) == 0;
    }
  }

  lemma ShiftedPairs(out: seq<Msg>, x: string)
    requires Results(out, x, |out|) == Holders(out, x, |out|)
    requires Shifted(out, x)
    ensures Paired(out, x)
  {
    forall i | 0 <= i < |out| && Holds(out[i], x)
      ensures i + 1 < |out| && out[i + 1].role.User? && ResultCount(out[i + 1].content, x) == 1
    {
      assert Holders(out, x, i + 1) == Holders(out, x, i) + 1;
      assert Results(out, x, i + 1) == Holders(out, x, i);
      if i + 1 < |out| {
        assert Results(out, x, i + 1 + 1) == Holders(out, x, i + 1);
      }
    }
    forall j | 0 <= j < |out| && out[j].role.User? && ResultCount(out[j].content, x) > 0
      ensures j > 0 && Holds(out[j - 1], x)
    {
      assert Results(out, x, j + 1) == Holders(out, x, j);
      if j > 0 {
        assert Results(out, x, (j - 1) + 1) == Holders(out, x, j - 1);
      }
    }
  }

  lemma {:induction false} NextAnswered(ms: seq<Msg>, x: string, n: nat) returns (i: nat)
    requires n <= |ms| && Permits(ms, x, n) < Permits(ms, x, |ms|)
    ensures n <= i < |ms| && Answered(ms, x, i) && Permits(ms, x, i) == Permits(ms, x, n)
    decreases |ms| - n
  {
    if Answered(ms, x, n) {
      i := n;
    } else {
      i := NextAnswered(ms, x, n + 1);
    }
  }

  /**
   * The exact guarantee on positions: after sanitising, `x` is paired message by message if and only
   * if its answers and its answered calls alternate in the merged input.
   */
  lemma {:induction false} PairingIffAlternating(ms: seq<Msg>, x: string)
    ensures Paired(Sanitize(ms), x) <==> Alternating(Merge(ms), x)
  {
    var merged, out := Merge(ms), Sanitize(ms);
    var limit := Permits(merged, x, |merged|);
    CountingLaw(ms, x);
    PairedMeansShifted(out, x);
    forall j | 0 <= j < |out|
      ensures Results(out, x, j + 1) == Min(Results(merged, x, j + 1), limit)
      ensures Holders(out, x, j) == Permits(merged, x, j)
    {
      SanitizedResults(merged, x, j + 1);
      SanitizedHolders(merged, x, j);
    }
    if Paired(out, x) {
      ShiftedAlternates(merged, x);
    }
    if Alternating(merged, x) {
      forall j | 0 <= j < |out| ensures Results(out, x, j + 1) == Holders(out, x, j) {
        AlternatingShift(merged, x, j);
      }
    }
  }

  lemma ShiftedAlternates(ms: seq<Msg>, x: string)
    requires forall j :: 0 <= j < |ms| ==>
        Min(Results(ms, x, j + 1), Permits(ms, x, |ms|)) == Permits(ms, x, j)
    ensures Alternating(ms, x)
  {
    forall i | 0 <= i < |ms| && Answered(ms, x, i) ensures Results(ms, x, i) == Permits(ms, x, i) {
      PermitsMonotone(ms, x, i + 1, |ms|);
      PermitsStepResults(ms, x, i);
    }
  }

  lemma {:induction false} PermitsMonotone(ms: seq<Msg>, x: string, i: nat, j: nat)
    requires i <= j <= |ms|
    ensures Permits(ms, x, i) <= Permits(ms, x, j)
    decreases j
  {
    if i < j {
      PermitsMonotone(ms, x, i, j - 1);
    }
  }

  lemma AlternatingShift(ms: seq<Msg>, x: string, j: nat)
    requires Alternating(ms, x) && j < |ms|
    ensures Min(Results(ms, x, j + 1), Permits(ms, x, |ms|)) == Permits(ms, x, j)
  {
    PermitsBelowResults(ms, x, j);
    PermitsMonotone(ms, x, j, |ms|);
    if Permits(ms, x, j) < Permits(ms, x, |ms|) {
      var i := NextAnswered(ms, x, j);
      PermitsStepResults(ms, x, i);
      CountsMonotone(ms, x, j + 1, i + 1);
    }
  }

  // ---------------------------------------------------------------- fresh ids are paired

  /** Joining runs of results changes neither the counts of `x` nor its freshness. */
  lemma {:induction false} MergeKeepsFresh(ms: seq<Msg>, x: string)
    ensures Results(Merge(ms), x, |Merge(ms)|) == Results(ms, x, |ms|)
    ensures Holders(Merge(ms), x, |Merge(ms)|) == Holders(ms, x, |ms|)
    ensures Fresh(ms, x) ==> Fresh(Merge(ms), x)
  {
    if ms != [] {
      var rest, m := ms[..|ms| - 1], ms[|ms| - 1];
      MergeKeepsFresh(rest, x);
      assert ms == rest + [m];
      CountsLast(rest, m, x);
      AppendCounts(Merge(rest), m, x);
      if Fresh(ms, x) {
        FreshPrefix(rest, m, x);
        AppendKeepsFresh(Merge(rest), m, x);
      }
    }
  }

  lemma {:induction false} CountsLast(ms: seq<Msg>, m: Msg, x: string)
    ensures Results(ms + [m], x, |ms| + 1)
            == Results(ms, x, |ms|) + if m.role.User? then ResultCount(m.content, x) else 0
    ensures Holders(ms + [m], x, |ms| + 1) == Holders(ms, x, |ms|) + if Holds(m, x) then 1 else 0
  {
    CountsOfPrefix(ms, [m], x, |ms|);
  }

  lemma AppendCounts(prior: seq<Msg>, m: Msg, x: string)
    ensures var r := Append(prior, m);
            && Results(r, x, |r|)
               == Results(prior, x, |prior|) + (if m.role.User? then ResultCount(m.content, x) else 0)
            && Holders(r, x, |r|) == Holders(prior, x, |prior|) + (if Holds(m, x) then 1 else 0)
  {
    if Append(prior, m) == prior + [m] {
      CountsLast(prior, m, x);
    } else {
      MergeLastKeepsFresh(prior, m, x);
    }
  }

  lemma {:induction false} AppendKeepsFresh(prior: seq<Msg>, m: Msg, x: string)
    requires Fresh(prior, x)
    requires Holds(m, x) ==> Holders(prior, x, |prior|) == 0 && Results(prior, x, |prior|) == 0
    ensures Fresh(Append(prior, m), x)
  {
    if Append(prior, m) == prior + [m] {
      FreshAppend(prior, m, x);
    } else {
      MergeLastKeepsFresh(prior, m, x);
    }
  }

  lemma {:induction false} FreshPrefix(ms: seq<Msg>, m: Msg, x: string)
    requires Fresh(ms + [m], x)
    ensures Fresh(ms, x)
    ensures Holds(m, x) ==> Holders(ms, x, |ms|) == 0 && Results(ms, x, |ms|) == 0
  {
    CountsOfPrefix(ms, [m], x, |ms|);
    forall i | 0 <= i < |ms| && Holds(ms[i], x) ensures Results(ms, x, i) == 0 {
      CountsOfPrefix(ms, [m], x, i);
      assert (ms + [m])[i] == ms[i];
    }
    assert (ms + [m])[|ms|] == m;
  }

  lemma FreshAppend(ms: seq<Msg>, m: Msg, x: string)
    requires Fresh(ms, x)
    requires Holds(m, x) ==> Holders(ms, x, |ms|) == 0 && Results(ms, x, |ms|) == 0
    ensures Fresh(ms + [m], x)
  {
    CountsOfPrefix(ms, [m], x, |ms|);
    forall i | 0 <= i < |ms + [m]| && Holds((ms + [m])[i], x)
      ensures Results(ms + [m], x, i) == 0
    {
      CountsOfPrefix(ms, [m], x, i);
    }
  }

  lemma MergeLastKeepsFresh(prior: seq<Msg>, m: Msg, x: string)
    requires prior != [] && IsToolResultOnly(prior[|prior| - 1]) && IsToolResultOnly(m)
    ensures var merged := Append(prior, m);
            && Results(merged, x, |merged|) == Results(prior, x, |prior|) + ResultCount(m.content, x)
            && Holders(merged, x, |merged|) == Holders(prior, x, |prior|)
            && (Fresh(prior, x) ==> Fresh(merged, x))
  {
    var init, last := prior[..|prior| - 1], prior[|prior| - 1];
    var joined := Msg(User, last.content + m.content);
    assert prior == init + [last];
    ResultCountConcat(last.content, m.content, x);
    CountsOfPrefix(init, [last], x, |init|);
    CountsOfPrefix(init, [joined], x, |init|);
    if Fresh(prior, x) {
      FreshPrefix(init, last, x);
      FreshAppend(init, joined, x);
    }
  }

  lemma FreshAlternates(ms: seq<Msg>, x: string)
    requires Fresh(ms, x)
    ensures Alternating(ms, x)
  {
    forall i | 0 <= i < |ms| && Answered(ms, x, i)
      ensures Results(ms, x, i) == Permits(ms, x, i)
    {
      assert Holds(ms[i], x);
      PermitsBelowHolders(ms, x, i);
      CountsMonotone(ms, x, i + 1, |ms|);
    }
  }

  lemma {:induction false} PermitsBelowHolders(ms: seq<Msg>, x: string, n: nat)
    requires n <= |ms|
    ensures Permits(ms, x, n) <= Holders(ms, x, n)
  {
    if n > 0 {
      PermitsBelowHolders(ms, x, n - 1);
    }
  }

  /** An id that is called once, and not answered before, comes out paired message by message. */
  lemma FreshIdsArePaired(ms: seq<Msg>, x: string)
    requires Fresh(ms, x)
    ensures Paired(Sanitize(ms), x)
  {
    MergeKeepsFresh(ms, x);
    FreshAlternates(Merge(ms), x);
    PairingIffAlternating(ms, x);
  }

  // ---------------------------------------------------------------- answered calls survive

  ghost predicate SomeAnswered(ms: seq<Msg>, x: string) {
    exists i :: 0 <= i < |ms| && Answered(ms, x, i)
  }

  /** What is appended later never separates a call from its answer. */
  lemma AppendKeepsAnswered(merged: seq<Msg>, m: Msg, x: string)
    requires SomeAnswered(merged, x)
    ensures SomeAnswered(Append(merged, m), x)
  {
    var i :| 0 <= i < |merged| && Answered(merged, x, i);
    var r := Append(merged, m);
    assert r[i] == merged[i];
    if r != merged + [m] && i + 2 == |merged| {
      var b :| b in merged[i + 1].content && ResultIdOf(b) == Some(x);
      assert b in r[i + 1].content;
    } else {
      assert r[i + 1] == merged[i + 1];
    }
    assert Answered(r, x, i);
  }

  lemma {:induction false} MergeKeepsAnswered(ms: seq<Msg>, more: seq<Msg>, x: string)
    requires SomeAnswered(Merge(ms), x)
    ensures SomeAnswered(Merge(ms + more), x)
  {
    if more == [] {
      assert ms + more == ms;
    } else {
      MergeKeepsAnswered(ms, more[..|more| - 1], x);
      assert (ms + more)[..|ms + more| - 1] == ms + more[..|more| - 1];
      AppendKeepsAnswered(Merge(ms + more[..|more| - 1]), more[|more| - 1], x);
    }
  }

  lemma MergePair(before: seq<Msg>, call: Msg, answer: Msg)
    requires call.role.Assistant?
    ensures Merge(before + [call, answer]) == Merge(before) + [call] + [answer]
  {
    var pair := before + [call, answer];
    assert pair[..|pair| - 1] == before + [call] && (before + [call])[..|before|] == before;
    assert Merge(before + [call]) == Merge(before) + [call];
  }

  lemma AnsweredMeansHolder(ms: seq<Msg>, x: string)
    requires SomeAnswered(ms, x)
    ensures Holders(SanitizeMerged(ms), x, |ms|) > 0
  {
    var i :| 0 <= i < |ms| && Answered(ms, x, i);
    PermitsMonotone(ms, x, i + 1, |ms|);
    SanitizedHolders(ms, x, |ms|);
  }

  /** A call answered by the very next message is never dropped, whatever surrounds the two. */
  lemma AnsweredCallSurvives(before: seq<Msg>, call: Msg, answer: Msg, after: seq<Msg>, x: string)
    requires Holds(call, x) && answer.role.User? && x in ResultIds(answer.content)
    ensures var out := Sanitize(before + [call, answer] + after); Holders(out, x, |out|) > 0
  {
    var merged := Merge(before + [call, answer]);
    MergePair(before, call, answer);
    assert Answered(merged, x, |Merge(before)|);
    MergeKeepsAnswered(before + [call, answer], after, x);
    AnsweredMeansHolder(Merge(before + [call, answer] + after), x);
  }

  /**
   * Without freshness pairing can fail: an early stray answer takes the only permit, and the call is
   * left with no answer in the next message.
   */
  lemma StrayAnswerBreaksPairing(x: string)
    ensures var id := ToolId(x, Some(x));
            var stray := Msg(User, [ToolResult(id, "old", "success")]);
            var call := Msg(Assistant, [ToolUse(id, "f", "{}")]);
            var answer := Msg(User, [ToolResult(id, "new", "success")]);
            var ms := [stray, call, answer];
            !Alternating(Merge(ms), x) && !Paired(Sanitize(ms), x)
  {
    var id := ToolId(x, Some(x));
    var stray := Msg(User, [ToolResult(id, "old", "success")]);
    var call := Msg(Assistant, [ToolUse(id, "f", "{}")]);
    var answer := Msg(User, [ToolResult(id, "new", "success")]);
    var ms := [stray, call, answer];
    assert ms[..2] == [stray, call] && ms[..2][..1] == [stray] && [stray][..0] == [];
    assert Merge([stray]) == [stray];
    assert Merge([stray, call]) == [stray, call];
    assert Merge(ms) == ms;
    assert stray.content[..0] == [] && ResultCount(stray.content, x) == 1;
    assert Results(ms, x, 0) == 0 && Results(ms, x, 1) == 1 && Permits(ms, x, 1) == 0;
    ResultCountPositive(answer.content, x);
    assert call.content[0] in call.content && answer.content[0] in answer.content;
    assert Answered(ms, x, 1);
    PairingIffAlternating(ms, x);
  }
}
