/**
 * Which tool blocks sanitising keeps, block by block: of the results for an id the first ones, as many as calls
 * of it are left; of the calls in a message those that the next message answers; and all else, in order.
 */
module BedrockToolBlocks {
  import opened Integers
  import opened Options
  import opened BedrockMessages
  import opened BedrockSanitizer
  import opened BedrockPairing

  // ---------------------------------------------------------------- the blocks of an id

  function ResultsIn(content: seq<Block>, x: string): seq<Block> {
    if content == [] then []
    else
      var b := content[|content| - 1];
      ResultsIn(content[..|content| - 1], x) + if ResultIdOf(b) == Some(x) then [b] else []
  }

  function UsesIn(content: seq<Block>, x: string): seq<Block> {
    if content == [] then []
    else
      var b := content[|content| - 1];
      UsesIn(content[..|content| - 1], x) + if UseIdOf(b) == Some(x) then [b] else []
  }

  /** The results for `x` in the user messages, in order. */
  function ResultsOf(ms: seq<Msg>, x: string): seq<Block> {
    if ms == [] then []
    else
      var m := ms[|ms| - 1];
      ResultsOf(ms[..|ms| - 1], x) + if m.role.User? then ResultsIn(m.content, x) else []
  }

  /** The calls of `x` in the assistant messages, in order. */
  function CallsOf(ms: seq<Msg>, x: string): seq<Block> {
    if ms == [] then []
    else
      var m := ms[|ms| - 1];
      CallsOf(ms[..|ms| - 1], x) + if m.role.Assistant? then UsesIn(m.content, x) else []
  }

  lemma BlocksLast(content: seq<Block>, b: Block, x: string)
    ensures ResultsIn(content + [b], x) == ResultsIn(content, x) + if ResultIdOf(b) == Some(x) then [b] else []
    ensures UsesIn(content + [b], x) == UsesIn(content, x) + if UseIdOf(b) == Some(x) then [b] else []
  {
    assert (content + [b])[..|content|] == content;
  }

  lemma {:induction false} BlocksConcat(a: seq<Block>, b: seq<Block>, x: string)
    ensures ResultsIn(a + b, x) == ResultsIn(a, x) + ResultsIn(b, x)
    ensures UsesIn(a + b, x) == UsesIn(a, x) + UsesIn(b, x)
  {
    if b == [] {
      assert a + b == a;
    } else {
      var init, last := b[..|b| - 1], b[|b| - 1];
      assert a + b == (a + init) + [last];
      BlocksConcat(a, init, x);
      BlocksLast(a + init, last, x);
    }
  }

  lemma {:induction false} ResultsInCount(content: seq<Block>, x: string)
    ensures |ResultsIn(content, x)| == ResultCount(content, x)
  {
    if content != [] {
      ResultsInCount(content[..|content| - 1], x);
    }
  }

  lemma {:induction false} UsesInIds(content: seq<Block>, x: string)
    ensures UsesIn(content, x) != [] <==> x in UseIds(content)
  {
    if content != [] {
      var rest, b := content[..|content| - 1], content[|content| - 1];
      UsesInIds(rest, x);
      assert content == rest + [b];
      assert x in UseIds(content) <==> x in UseIds(rest) || UseIdOf(b) == Some(x);
    }
  }

  lemma PlaceholderBlocks(content: seq<Block>, x: string)
    ensures ResultsIn(NonEmpty(content), x) == ResultsIn(content, x)
    ensures UsesIn(NonEmpty(content), x) == UsesIn(content, x)
  {
    BlocksLast([], PLACEHOLDER, x);
    assert [] + [PLACEHOLDER] == [PLACEHOLDER];
  }

  lemma ListLast(ms: seq<Msg>, m: Msg, x: string)
    ensures ResultsOf(ms + [m], x) == ResultsOf(ms, x) + if m.role.User? then ResultsIn(m.content, x) else []
    ensures CallsOf(ms + [m], x) == CallsOf(ms, x) + if m.role.Assistant? then UsesIn(m.content, x) else []
  {
    assert (ms + [m])[..|ms|] == ms;
  }

  lemma {:induction false} ResultsOfCount(ms: seq<Msg>, x: string)
    ensures |ResultsOf(ms, x)| == Results(ms, x, |ms|)
  {
    if ms != [] {
      var rest, m := ms[..|ms| - 1], ms[|ms| - 1];
      ResultsOfCount(rest, x);
      ResultsInCount(m.content, x);
      assert ms == rest + [m];
      CountsLast(rest, m, x);
    }
  }

  // ---------------------------------------------------------------- merging

  lemma JoinedBlocks(init: seq<Msg>, a: seq<Block>, b: seq<Block>, x: string)
    ensures ResultsOf(init + [Msg(User, a + b)], x) == ResultsOf(init + [Msg(User, a)], x) + ResultsIn(b, x)
    ensures CallsOf(init + [Msg(User, a + b)], x) == CallsOf(init + [Msg(User, a)], x)
  {
    ListLast(init, Msg(User, a), x);
    ListLast(init, Msg(User, a + b), x);
    BlocksConcat(a, b, x);
    ConcatThree(ResultsOf(init, x), ResultsIn(a, x), ResultsIn(b, x));
  }

  lemma AppendBlocks(prior: seq<Msg>, m: Msg, x: string)
    ensures ResultsOf(Append(prior, m), x)
            == ResultsOf(prior, x) + if m.role.User? then ResultsIn(m.content, x) else []
    ensures CallsOf(Append(prior, m), x)
            == CallsOf(prior, x) + if m.role.Assistant? then UsesIn(m.content, x) else []
  {
    if Append(prior, m) == prior + [m] {
      ListLast(prior, m, x);
    } else {
      var init, last := prior[..|prior| - 1], prior[|prior| - 1];
      assert prior == init + [Msg(User, last.content)];
      JoinedBlocks(init, last.content, m.content, x);
      assert CallsOf(prior, x) + [] == CallsOf(prior, x);
    }
  }

  /** Merging moves no result and no call of `x` past another. */
  lemma {:induction false} MergeBlocks(ms: seq<Msg>, x: string)
    ensures ResultsOf(Merge(ms), x) == ResultsOf(ms, x)
    ensures CallsOf(Merge(ms), x) == CallsOf(ms, x)
  {
    if ms != [] {
      var rest, m := ms[..|ms| - 1], ms[|ms| - 1];
      MergeBlocks(rest, x);
      assert ms == rest + [m];
      AppendBlocks(Merge(rest), m, x);
      ListLast(rest, m, x);
    }
  }

  // ---------------------------------------------------------------- results

  /** The first `limit` blocks, or all if there are fewer. */
  function First(blocks: seq<Block>, limit: nat): seq<Block> {
    if |blocks| <= limit then blocks else blocks[..limit]
  }

  lemma KeepOneMore(kept: seq<Block>, all: seq<Block>, b: Block, limit: nat)
    requires kept == First(all, limit)
    ensures (if |all| < limit then kept + [b] else kept) == First(all + [b], limit)
  {
  }

  lemma ResultsInLast(content: seq<Block>, x: string)
    requires content != []
    ensures var b := content[|content| - 1];
            ResultsIn(content, x)
            == ResultsIn(content[..|content| - 1], x) + if ResultIdOf(b) == Some(x) then [b] else []
  {
  }

  lemma KeepFirstLast(content: seq<Block>, spare: string -> int, x: string, kept: seq<Block>)
    requires content != [] && kept == KeepFirst(content[..|content| - 1], spare)
    ensures var b := content[|content| - 1];
            ResultsIn(KeepFirst(content, spare), x)
            == ResultsIn(kept, x)
               + if ResultIdOf(b) == Some(x) && ResultCount(content[..|content| - 1], x) < spare(x) then [b] else []
  {
    BlocksLast(kept, content[|content| - 1], x);
    assert kept + [] == kept;
  }

  lemma {:induction false} KeptResults(content: seq<Block>, spare: string -> int, x: string, limit: nat)
    requires limit == Max(spare(x), 0)
    ensures ResultsIn(KeepFirst(content, spare), x) == First(ResultsIn(content, x), limit)
  {
    if content != [] {
      var rest, b := content[..|content| - 1], content[|content| - 1];
      KeptResults(rest, spare, x, limit);
      ResultsInCount(rest, x);
      KeepFirstLast(content, spare, x, KeepFirst(rest, spare));
      ResultsInLast(content, x);
      KeepOneMore(ResultsIn(KeepFirst(rest, spare), x), ResultsIn(rest, x), b, limit);
    }
  }

  lemma FirstOfConcat(a: seq<Block>, b: seq<Block>, limit: nat)
    ensures First(a + b, limit) == First(a, limit) + First(b, Max(limit - |a|, 0))
  {
  }

  lemma SanitizedTakeResults(ms: seq<Msg>, n: nat, x: string)
    requires n < |ms|
    ensures ResultsOf(SanitizeMerged(ms)[..n + 1], x)
            == ResultsOf(SanitizeMerged(ms)[..n], x)
               + if ms[n].role.User? then ResultsIn(SanitizedMsg(ms, n).content, x) else []
    ensures ResultsOf(ms[..n + 1], x)
            == ResultsOf(ms[..n], x) + if ms[n].role.User? then ResultsIn(ms[n].content, x) else []
  {
    var out := SanitizeMerged(ms);
    assert out[..n + 1] == out[..n] + [out[n]] && ms[..n + 1] == ms[..n] + [ms[n]];
    ListLast(out[..n], out[n], x);
    ListLast(ms[..n], ms[n], x);
  }

  lemma SanitizedTakeCalls(ms: seq<Msg>, n: nat, x: string)
    requires n < |ms|
    ensures CallsOf(SanitizeMerged(ms)[..n + 1], x)
            == CallsOf(SanitizeMerged(ms)[..n], x)
               + if ms[n].role.Assistant? then UsesIn(SanitizedMsg(ms, n).content, x) else []
    ensures CallsOf(ms[..n + 1], x)
            == CallsOf(ms[..n], x) + if ms[n].role.Assistant? then UsesIn(ms[n].content, x) else []
  {
    var out := SanitizeMerged(ms);
    assert out[..n + 1] == out[..n] + [out[n]] && ms[..n + 1] == ms[..n] + [ms[n]];
    ListLast(out[..n], out[n], x);
    ListLast(ms[..n], ms[n], x);
  }

  lemma ResultsTake(ms: seq<Msg>, n: nat, x: string)
    requires n <= |ms|
    ensures |ResultsOf(ms[..n], x)| == Results(ms, x, n)
  {
    ResultsOfCount(ms[..n], x);
    assert ms == ms[..n] + ms[n..];
    CountsOfPrefix(ms[..n], ms[n..], x, n);
  }

  /** Of its results a user message keeps the first ones, as many as permits are left. */
  lemma SanitizedResultsIn(ms: seq<Msg>, i: nat, x: string, left: nat)
    requires i < |ms| && ms[i].role.User? && left == Max(Permits(ms, x, |ms|) - Results(ms, x, i), 0)
    ensures ResultsIn(SanitizedMsg(ms, i).content, x) == First(ResultsIn(ms[i].content, x), left)
  {
    KeptResults(ms[i].content, Spare(ms, i), x, left);
    PlaceholderBlocks(KeepFirst(ms[i].content, Spare(ms, i)), x);
  }

  lemma SanitizedResultsStep(ms: seq<Msg>, i: nat, x: string, limit: nat, before: seq<Block>)
    requires i < |ms| && ms[i].role.User? && limit == Permits(ms, x, |ms|)
    requires before == ResultsOf(ms[..i], x)
    ensures First(before, limit) + ResultsIn(SanitizedMsg(ms, i).content, x)
            == First(before + ResultsIn(ms[i].content, x), limit)
  {
    ResultsTake(ms, i, x);
    SanitizedResultsIn(ms, i, x, Max(limit - |before|, 0));
    FirstOfConcat(before, ResultsIn(ms[i].content, x), limit);
  }

  lemma {:induction false} SanitizedResultBlocks(ms: seq<Msg>, n: nat, x: string, limit: nat)
    requires n <= |ms| && limit == Permits(ms, x, |ms|)
    ensures ResultsOf(SanitizeMerged(ms)[..n], x) == First(ResultsOf(ms[..n], x), limit)
  {
    if n > 0 {
      var i := n - 1;
      SanitizedResultBlocks(ms, i, x, limit);
      SanitizedTakeResults(ms, i, x);
      if ms[i].role.User? {
        SanitizedResultsStep(ms, i, x, limit, ResultsOf(ms[..i], x));
      }
    }
  }

  /**
   * Of the results for `x` in the whole list, the first ones are left, unchanged and in order: as many as
   * assistant messages still call `x`.
   */
  lemma FirstResultsSurvive(ms: seq<Msg>, x: string)
    ensures var out := Sanitize(ms);
            && Holders(out, x, |out|) <= |ResultsOf(ms, x)|
            && ResultsOf(out, x) == ResultsOf(ms, x)[..Holders(out, x, |out|)]
  {
    var merged, out := Merge(ms), Sanitize(ms);
    MergeBlocks(ms, x);
    SanitizedResultBlocks(merged, |merged|, x, Permits(merged, x, |merged|));
    assert merged[..|merged|] == merged && out[..|out|] == out;
    SanitizedHolders(merged, x, |merged|);
    PermitsBelowResults(merged, x, |merged|);
    ResultsOfCount(merged, x);
  }

  // ---------------------------------------------------------------- calls and all else

  /** The blocks for which `keep` holds, in order. */
  function Where(content: seq<Block>, keep: Block -> bool): seq<Block> {
    if content == [] then []
    else
      var b := content[|content| - 1];
      Where(content[..|content| - 1], keep) + if keep(b) then [b] else []
  }

  /** The next message answers the call, if `b` is one. */
  predicate NextAnswers(ms: seq<Msg>, i: nat, b: Block)
    requires i < |ms|
  {
    b.ToolUse? && b.useId.key.Some? ==>
      i + 1 < |ms| && ms[i + 1].role.User? && ResultCount(ms[i + 1].content, b.useId.key.value) > 0
  }

  lemma {:induction false} FilterUsesIsWhere(content: seq<Block>, allowed: set<string>, keep: Block -> bool)
    requires forall b :: b in content ==> (keep(b) <==> UseIdOf(b).None? || UseIdOf(b).value in allowed)
    ensures FilterUses(content, allowed) == Where(content, keep)
  {
    if content != [] {
      assert content[|content| - 1] in content;
      FilterUsesIsWhere(content[..|content| - 1], allowed, keep);
    }
  }

  lemma {:induction false} WhereAll(content: seq<Block>, keep: Block -> bool)
    requires forall b :: b in content ==> keep(b)
    ensures Where(content, keep) == content
  {
    if content != [] {
      var rest, b := content[..|content| - 1], content[|content| - 1];
      assert content == rest + [b] && b in content;
      WhereAll(rest, keep);
    }
  }

  lemma AllowedIsAnswered(ms: seq<Msg>, i: nat, b: Block)
    requires i < |ms| && b in ms[i].content
    ensures NextAnswers(ms, i, b) <==> UseIdOf(b).None? || UseIdOf(b).value in AllowedIds(ms, i)
  {
    if UseIdOf(b).Some? && i + 1 < |ms| {
      ResultCountPositive(ms[i + 1].content, UseIdOf(b).value);
    }
  }

  lemma NoUses(content: seq<Block>)
    requires UseIds(content) == {}
    ensures forall b :: b in content ==> UseIdOf(b).None?
  {
    forall b | b in content && UseIdOf(b).Some? ensures UseIdOf(b).value in UseIds(content) {
    }
  }

  /**
   * An assistant message keeps exactly the calls that the next message answers, and every other block, unchanged
   * and in order; one that is left empty gets the placeholder.
   */
  lemma AssistantKeeps(ms: seq<Msg>, i: nat)
    requires i < |ms| && ms[i].role.Assistant?
    ensures var kept := Where(ms[i].content, b => NextAnswers(ms, i, b));
            SanitizedMsg(ms, i)
            == Msg(Assistant, if kept == [] && ms[i].content != [] then [Text(" ")] else kept)
  {
    var content := ms[i].content;
    var keep := b => NextAnswers(ms, i, b);
    forall b | b in content ensures keep(b) <==> UseIdOf(b).None? || UseIdOf(b).value in AllowedIds(ms, i) {
      AllowedIsAnswered(ms, i, b);
    }
    FilterUsesIsWhere(content, AllowedIds(ms, i), keep);
    if UseIds(content) == {} {
      NoUses(content);
      WhereAll(content, keep);
    }
  }

  /** `part` is `whole` with some blocks left out. */
  predicate IsPart(part: seq<Block>, whole: seq<Block>) {
    part == []
    || (whole != []
        && var p, w := |part| - 1, |whole| - 1;
           IsPart(part, whole[..w]) || (part[p] == whole[w] && IsPart(part[..p], whole[..w])))
  }

  lemma {:induction false} KeepFirstPart(content: seq<Block>, spare: string -> int)
    ensures IsPart(KeepFirst(content, spare), content)
  {
    if content != [] {
      var rest, b := content[..|content| - 1], content[|content| - 1];
      KeepFirstPart(rest, spare);
      var kept := KeepFirst(rest, spare);
      if Affordable(rest, b, spare) {
        assert (kept + [b])[..|kept|] == kept;
      } else {
        assert kept + [] == kept;
      }
    }
  }

  lemma {:induction false} KeepFirstOthers(content: seq<Block>, spare: string -> int)
    ensures Where(KeepFirst(content, spare), b => ResultIdOf(b).None?) == Where(content, b => ResultIdOf(b).None?)
  {
    if content != [] {
      var rest, b := content[..|content| - 1], content[|content| - 1];
      KeepFirstOthers(rest, spare);
      var kept := KeepFirst(rest, spare);
      if Affordable(rest, b, spare) {
        assert (kept + [b])[..|kept|] == kept;
      } else {
        assert kept + [] == kept;
      }
    }
  }

  /**
   * A user message keeps its blocks in order; all that are not results with an id stay, and which of the results
   * stay is what `FirstResultsSurvive` says. One that is left empty gets the placeholder.
   */
  lemma UserKeeps(ms: seq<Msg>, i: nat)
    requires i < |ms| && ms[i].role.User?
    ensures var m, other := SanitizedMsg(ms, i), Where(ms[i].content, b => ResultIdOf(b).None?);
            && m.role.User? && m.content != []
            && ((m.content == [Text(" ")] && other == [])
                || (IsPart(m.content, ms[i].content) && Where(m.content, b => ResultIdOf(b).None?) == other))
  {
    KeepFirstPart(ms[i].content, Spare(ms, i));
    KeepFirstOthers(ms[i].content, Spare(ms, i));
  }

  // ---------------------------------------------------------------- calls of one id

  lemma {:induction false} FilterUsesOf(content: seq<Block>, allowed: set<string>, x: string)
    ensures UsesIn(FilterUses(content, allowed), x) == if x in allowed then UsesIn(content, x) else []
  {
    if content != [] {
      var rest, b := content[..|content| - 1], content[|content| - 1];
      FilterUsesOf(rest, allowed, x);
      BlocksLast(FilterUses(rest, allowed), b, x);
      assert FilterUses(rest, allowed) + [] == FilterUses(rest, allowed);
    }
  }

  /** A message keeps all its calls of `x` if it is answered, and none otherwise. */
  lemma SanitizedCalls(ms: seq<Msg>, i: nat, x: string)
    requires i < |ms| && ms[i].role.Assistant?
    ensures UsesIn(SanitizedMsg(ms, i).content, x) == if Answered(ms, x, i) then UsesIn(ms[i].content, x) else []
  {
    UsesInIds(ms[i].content, x);
    FilterUsesOf(ms[i].content, AllowedIds(ms, i), x);
    PlaceholderBlocks(FilterUses(ms[i].content, AllowedIds(ms, i)), x);
  }

  lemma {:induction false} AllAnsweredCalls(ms: seq<Msg>, n: nat, x: string)
    requires n <= |ms| && Permits(ms, x, n) == Holders(ms, x, n)
    ensures CallsOf(SanitizeMerged(ms)[..n], x) == CallsOf(ms[..n], x)
  {
    if n > 0 {
      var i := n - 1;
      PermitsBelowHolders(ms, x, i);
      AllAnsweredCalls(ms, i, x);
      SanitizedTakeCalls(ms, i, x);
      if ms[i].role.Assistant? {
        SanitizedCalls(ms, i, x);
        UsesInIds(ms[i].content, x);
      }
    }
  }

  /** When no assistant message loses its calls of `x`, all of them are left, unchanged and in order. */
  lemma AllCallsSurvive(ms: seq<Msg>, x: string)
    requires Holders(Sanitize(ms), x, |Sanitize(ms)|) == Holders(ms, x, |ms|)
    ensures CallsOf(Sanitize(ms), x) == CallsOf(ms, x)
  {
    var merged, out := Merge(ms), Sanitize(ms);
    MergeBlocks(ms, x);
    MergeKeepsFresh(ms, x);
    SanitizedHolders(merged, x, |merged|);
    AllAnsweredCalls(merged, |merged|, x);
    assert merged[..|merged|] == merged && out[..|out|] == out;
  }

  lemma {:induction false} PartConcat(a: seq<Block>, b: seq<Block>, c: seq<Block>, d: seq<Block>)
    requires IsPart(a, b) && IsPart(c, d)
    ensures IsPart(a + c, b + d)
    decreases |d|
  {
    if d == [] {
      assert a + c == a && b + d == b;
    } else {
      var rest := d[..|d| - 1];
      assert (b + d)[..|b + d| - 1] == b + rest;
      if IsPart(c, rest) {
        PartConcat(a, b, c, rest);
      } else {
        assert (a + c)[..|a + c| - 1] == a + c[..|c| - 1];
        PartConcat(a, b, c[..|c| - 1], rest);
      }
    }
  }

  lemma {:induction false} PartSelf(a: seq<Block>)
    ensures IsPart(a, a)
  {
    if a != [] {
      PartSelf(a[..|a| - 1]);
    }
  }

  lemma {:induction false} PartOfPart(a: seq<Block>, b: seq<Block>, c: seq<Block>)
    requires IsPart(a, b) && IsPart(b, c)
    ensures IsPart(a, c)
    decreases |b| + |c|
  {
    if a != [] {
      var rest := c[..|c| - 1];
      if IsPart(b, rest) {
        PartOfPart(a, b, rest);
      } else if IsPart(a, b[..|b| - 1]) {
        PartOfPart(a, b[..|b| - 1], rest);
      } else {
        PartOfPart(a[..|a| - 1], b[..|b| - 1], rest);
      }
    }
  }

  lemma OneMorePart(part: seq<Block>, whole: seq<Block>, kept: seq<Block>, more: seq<Block>)
    requires IsPart(part, whole) && (kept == more || kept == [])
    ensures IsPart(part + kept, whole + more)
  {
    PartSelf(more);
    PartConcat(part, whole, kept, more);
  }

  lemma {:induction false} SanitizedCallsPart(ms: seq<Msg>, n: nat, x: string)
    requires n <= |ms|
    ensures IsPart(CallsOf(SanitizeMerged(ms)[..n], x), CallsOf(ms[..n], x))
  {
    if n > 0 {
      var i := n - 1;
      SanitizedCallsPart(ms, i, x);
      SanitizedTakeCalls(ms, i, x);
      var kept := if ms[i].role.Assistant? then UsesIn(SanitizedMsg(ms, i).content, x) else [];
      var more := if ms[i].role.Assistant? then UsesIn(ms[i].content, x) else [];
      if ms[i].role.Assistant? {
        SanitizedCalls(ms, i, x);
      }
      OneMorePart(CallsOf(SanitizeMerged(ms)[..i], x), CallsOf(ms[..i], x), kept, more);
    }
  }

  /** The calls that are left are calls of the list, unchanged and in order. */
  lemma CallsLeftAreCalls(ms: seq<Msg>, x: string)
    ensures IsPart(CallsOf(Sanitize(ms), x), CallsOf(ms, x))
  {
    var merged, out := Merge(ms), Sanitize(ms);
    MergeBlocks(ms, x);
    SanitizedCallsPart(merged, |merged|, x);
    assert merged[..|merged|] == merged && out[..|out|] == out;
  }
}
