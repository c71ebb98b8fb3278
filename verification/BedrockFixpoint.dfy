/** Sanitising twice: when the second time changes nothing. */
module BedrockFixpoint {
  import opened Options
  import opened BedrockMessages
  import opened BedrockSanitizer
  import opened BedrockPairing

  // ---------------------------------------------------------------- sanitising twice

  lemma {:induction false} FilterUsesAll(content: seq<Block>, allowed: set<string>)
    requires UseIds(content) <= allowed
    ensures FilterUses(content, allowed) == content
  {
    if content != [] {
      var b := content[|content| - 1];
      var rest := content[..|content| - 1];
      assert content == rest + [b] && b in content;
      assert UseIds(rest) <= UseIds(content);
      FilterUsesAll(rest, allowed);
    }
  }

  lemma {:induction false} KeepFirstAll(content: seq<Block>, spare: string -> int)
    requires forall x :: x in ResultIds(content) ==> ResultCount(content, x) <= spare(x)
    ensures KeepFirst(content, spare) == content
  {
    if content != [] {
      var rest, b := content[..|content| - 1], content[|content| - 1];
      assert content == rest + [b] && b in content;
      forall x | x in ResultIds(rest) ensures ResultCount(rest, x) <= spare(x) {
        assert x in ResultIds(content);
      }
      KeepFirstAll(rest, spare);
    }
  }

  /** A message that holds something besides results keeps it, so no new runs of results arise. */
  lemma SanitizedResultOnly(ms: seq<Msg>, j: nat)
    requires j < |ms| && IsToolResultOnly(SanitizedMsg(ms, j))
    ensures IsToolResultOnly(ms[j])
  {
    var kept := KeepFirst(ms[j].content, Spare(ms, j));
    assert NonEmpty(kept)[0] in NonEmpty(kept);
    KeptOthers(ms[j].content, Spare(ms, j));
  }

  lemma {:induction false} KeptOthers(content: seq<Block>, spare: string -> int)
    ensures forall b :: b in content && ResultIdOf(b).None? ==> b in KeepFirst(content, spare)
    ensures forall b :: b in KeepFirst(content, spare) ==> b in content
  {
    if content != [] {
      KeptOthers(content[..|content| - 1], spare);
      assert content == content[..|content| - 1] + [content[|content| - 1]];
    }
  }

  ghost predicate NoResultRuns(ms: seq<Msg>) {
    forall i :: 0 < i < |ms| ==> !(IsToolResultOnly(ms[i - 1]) && IsToolResultOnly(ms[i]))
  }

  lemma {:induction false} MergeHasNoRuns(ms: seq<Msg>)
    ensures NoResultRuns(Merge(ms))
  {
    if ms != [] {
      MergeHasNoRuns(ms[..|ms| - 1]);
      var prior, m := Merge(ms[..|ms| - 1]), ms[|ms| - 1];
      if prior != [] && IsToolResultOnly(prior[|prior| - 1]) && IsToolResultOnly(m) {
        var merged := Append(prior, m);
        forall i | 0 < i < |merged|
          ensures !(IsToolResultOnly(merged[i - 1]) && IsToolResultOnly(merged[i]))
        {
          assert merged[i - 1] == prior[i - 1];
        }
      }
    }
  }

  lemma {:induction false} MergeFixed(ms: seq<Msg>)
    requires NoResultRuns(ms)
    ensures Merge(ms) == ms
  {
    if ms != [] {
      MergeFixed(ms[..|ms| - 1]);
      assert ms == ms[..|ms| - 1] + [ms[|ms| - 1]];
    }
  }

  /** Merging a sanitised list again finds nothing to join. */
  lemma MergeAfterSanitize(ms: seq<Msg>)
    ensures Merge(Sanitize(ms)) == Sanitize(ms)
  {
    var merged, out := Merge(ms), Sanitize(ms);
    MergeHasNoRuns(ms);
    forall i | 0 < i < |out|
      ensures !(IsToolResultOnly(out[i - 1]) && IsToolResultOnly(out[i]))
    {
      if IsToolResultOnly(out[i - 1]) && IsToolResultOnly(out[i]) {
        SanitizedResultOnly(merged, i - 1);
        SanitizedResultOnly(merged, i);
      }
    }
    MergeFixed(out);
  }

  ghost predicate AllPaired(ms: seq<Msg>) {
    forall x {:trigger Paired(ms, x)} :: Paired(ms, x)
  }

  lemma PairedIsAnswered(out: seq<Msg>, x: string, n: nat)
    requires Paired(out, x) && n <= |out|
    ensures Permits(out, x, n) == Holders(out, x, n)
  {
    if n > 0 {
      PairedIsAnswered(out, x, n - 1);
      if Holds(out[n - 1], x) {
        ResultCountPositive(out[n].content, x);
      }
    }
  }

  lemma {:induction false} PairedStaysFixed(out: seq<Msg>, i: nat)
    requires AllPaired(out) && i < |out|
    requires forall x :: Results(out, x, |out|) == Holders(out, x, |out|)
    requires out[i].role.User? ==> out[i].content != []
    ensures SanitizedMsg(out, i) == out[i]
  {
    if out[i].role.Assistant? {
      PairedAllowsAll(out, i);
      FilterUsesAll(out[i].content, AllowedIds(out, i));
    } else {
      PairedSpares(out, i);
      KeepFirstAll(out[i].content, Spare(out, i));
    }
  }

  lemma PairedAllowsAll(out: seq<Msg>, i: nat)
    requires AllPaired(out) && i < |out| && out[i].role.Assistant?
    ensures UseIds(out[i].content) <= AllowedIds(out, i)
  {
    forall x | x in UseIds(out[i].content) ensures x in AllowedIds(out, i) {
      assert Paired(out, x) && Holds(out[i], x);
      ResultCountPositive(out[i + 1].content, x);
    }
  }

  lemma {:induction false} PairedSpares(out: seq<Msg>, i: nat)
    requires AllPaired(out) && i < |out| && out[i].role.User?
    requires forall x :: Results(out, x, |out|) == Holders(out, x, |out|)
    ensures forall x :: x in ResultIds(out[i].content) ==> ResultCount(out[i].content, x) <= Spare(out, i)(x)
  {
    forall x | x in ResultIds(out[i].content)
      ensures ResultCount(out[i].content, x) <= Spare(out, i)(x)
    {
      assert Paired(out, x);
      PairedIsAnswered(out, x, |out|);
      CountsMonotone(out, x, i + 1, |out|);
    }
  }

  lemma SanitizedUsersNonEmpty(ms: seq<Msg>)
    ensures var out := SanitizeMerged(ms);
            forall i :: 0 <= i < |out| && out[i].role.User? ==> out[i].content != []
  {
  }

  /** A list that sanitising leaves alone has each of its calls answered by the next message. */
  lemma FixedIsShifted(out: seq<Msg>, x: string)
    requires SanitizeMerged(out) == out
    requires Results(out, x, |out|) == Holders(out, x, |out|)
    ensures Shifted(out, x)
  {
    forall j | 0 <= j < |out| ensures Results(out, x, j + 1) == Holders(out, x, j) {
      SanitizedHolders(out, x, j);
      SanitizedHolders(out, x, |out|);
      PermitsBelowResults(out, x, j);
      LatePermitsBelowResults(out, x, j);
    }
  }

  lemma {:induction false} AllPairedIsFixed(out: seq<Msg>)
    requires AllPaired(out)
    requires forall x :: Results(out, x, |out|) == Holders(out, x, |out|)
    requires forall i :: 0 <= i < |out| && out[i].role.User? ==> out[i].content != []
    ensures SanitizeMerged(out) == out
  {
    forall i | 0 <= i < |out| ensures SanitizedMsg(out, i) == out[i] {
      PairedStaysFixed(out, i);
    }
  }

  ghost predicate AllAlternating(ms: seq<Msg>) {
    forall x {:trigger Alternating(ms, x)} :: Alternating(ms, x)
  }

  lemma {:induction false} AlternatingIsIdempotent(ms: seq<Msg>)
    requires AllAlternating(Merge(ms))
    ensures Sanitize(Sanitize(ms)) == Sanitize(ms)
  {
    var out := Sanitize(ms);
    MergeAfterSanitize(ms);
    forall x ensures Results(out, x, |out|) == Holders(out, x, |out|) {
      CountingLaw(ms, x);
    }
    forall x ensures Paired(out, x) {
      PairingIffAlternating(ms, x);
    }
    SanitizedUsersNonEmpty(Merge(ms));
    AllPairedIsFixed(out);
  }

  lemma IdempotentIsAlternating(ms: seq<Msg>, x: string)
    requires Sanitize(Sanitize(ms)) == Sanitize(ms)
    ensures Alternating(Merge(ms), x)
  {
    MergeAfterSanitize(ms);
    CountingLaw(ms, x);
    FixedIsShifted(Sanitize(ms), x);
    ShiftedPairs(Sanitize(ms), x);
    PairingIffAlternating(ms, x);
  }

  /**
   * Sanitising is idempotent exactly on the inputs whose ids all alternate: the same condition that
   * gives positional pairing.
   */
  lemma {:induction false} IdempotentIffAlternating(ms: seq<Msg>)
    ensures Sanitize(Sanitize(ms)) == Sanitize(ms) <==> AllAlternating(Merge(ms))
  {
    if AllAlternating(Merge(ms)) {
      AlternatingIsIdempotent(ms);
    }
    if Sanitize(Sanitize(ms)) == Sanitize(ms) {
      forall x ensures Alternating(Merge(ms), x) {
        IdempotentIsAlternating(ms, x);
      }
    }
  }

  ghost predicate AllFresh(ms: seq<Msg>) {
    forall x {:trigger Fresh(ms, x)} :: Fresh(ms, x)
  }

  /** When every id is called once and not answered before, sanitising again changes nothing. */
  lemma FreshConversationIsFixed(ms: seq<Msg>)
    requires AllFresh(ms)
    ensures Sanitize(Sanitize(ms)) == Sanitize(ms)
  {
    forall x ensures Alternating(Merge(ms), x) {
      assert Fresh(ms, x);
      MergeKeepsFresh(ms, x);
      FreshAlternates(Merge(ms), x);
    }
    AlternatingIsIdempotent(ms);
  }
}
