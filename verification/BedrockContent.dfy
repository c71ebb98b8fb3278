/** What sanitising leaves alone: text and images, and that no message is empty. */
module BedrockContent {
  import opened Options
  import opened BedrockMessages
  import opened BedrockSanitizer

  // ---------------------------------------------------------------- nothing else is lost

  lemma {:induction false} FilterUsesPlain(content: seq<Block>, allowed: set<string>)
    ensures PlainOf(FilterUses(content, allowed)) == PlainOf(content)
  {
    if content != [] {
      var b, rest := content[|content| - 1], content[..|content| - 1];
      FilterUsesPlain(rest, allowed);
      var kept := FilterUses(rest, allowed);
      if UseIdOf(b).None? || UseIdOf(b).value in allowed {
        PlainOfLast(kept, b);
      } else {
        assert kept + [] == kept && PlainOf(rest) + [] == PlainOf(rest);
      }
    }
  }

  lemma {:induction false} KeepFirstPlain(content: seq<Block>, spare: string -> int)
    ensures PlainOf(KeepFirst(content, spare)) == PlainOf(content)
  {
    if content != [] {
      var rest, b := content[..|content| - 1], content[|content| - 1];
      KeepFirstPlain(rest, spare);
      var kept := KeepFirst(rest, spare);
      if Affordable(rest, b, spare) {
        PlainOfLast(kept, b);
      } else {
        assert kept + [] == kept && PlainOf(rest) + [] == PlainOf(rest);
      }
    }
  }

  lemma NonEmptyPlain(content: seq<Block>)
    ensures PlainOf(NonEmpty(content)) == PlainOf(content)
  {
    PlainOfLast([], PLACEHOLDER);
    assert [] + [PLACEHOLDER] == [PLACEHOLDER];
  }

  lemma SanitizedMsgPlain(ms: seq<Msg>, i: nat)
    requires i < |ms|
    ensures SanitizedMsg(ms, i).role == ms[i].role
    ensures PlainOf(SanitizedMsg(ms, i).content) == PlainOf(ms[i].content)
  {
    var content := ms[i].content;
    FilterUsesPlain(content, AllowedIds(ms, i));
    NonEmptyPlain(FilterUses(content, AllowedIds(ms, i)));
    KeepFirstPlain(content, Spare(ms, i));
    NonEmptyPlain(KeepFirst(content, Spare(ms, i)));
  }

  lemma {:induction false} PlainPointwise(a: seq<Msg>, b: seq<Msg>)
    requires |a| == |b|
    requires forall i :: 0 <= i < |a| ==> a[i].role == b[i].role && PlainOf(a[i].content) == PlainOf(b[i].content)
    ensures Plain(a) == Plain(b)
  {
    if a != [] {
      PlainPointwise(a[..|a| - 1], b[..|b| - 1]);
    }
  }

  lemma PlainLast(ms: seq<Msg>, m: Msg)
    ensures Plain(ms + [m]) == Plain(ms) + Tag(m.role, PlainOf(m.content))
  {
    assert (ms + [m])[..|ms|] == ms;
  }

  lemma PlainTagConcat(a: seq<Block>, b: seq<Block>)
    ensures Tag(User, PlainOf(a + b)) == Tag(User, PlainOf(a)) + Tag(User, PlainOf(b))
  {
    PlainOfConcat(a, b);
    TagConcat(User, PlainOf(a), PlainOf(b));
  }

  lemma JoinedPlain(init: seq<Msg>, a: seq<Block>, b: seq<Block>)
    ensures Plain(init + [Msg(User, a + b)]) == Plain(init + [Msg(User, a)]) + Tag(User, PlainOf(b))
  {
    PlainLast(init, Msg(User, a));
    PlainLast(init, Msg(User, a + b));
    PlainTagConcat(a, b);
    ConcatThree(Plain(init), Tag(User, PlainOf(a)), Tag(User, PlainOf(b)));
  }

  lemma AppendPlain(prior: seq<Msg>, m: Msg)
    ensures Plain(Append(prior, m)) == Plain(prior) + Tag(m.role, PlainOf(m.content))
  {
    if Append(prior, m) == prior + [m] {
      PlainLast(prior, m);
    } else {
      var init, last := prior[..|prior| - 1], prior[|prior| - 1];
      assert prior == init + [Msg(User, last.content)];
      JoinedPlain(init, last.content, m.content);
    }
  }

  lemma {:induction false} MergePlain(ms: seq<Msg>)
    ensures Plain(Merge(ms)) == Plain(ms)
  {
    if ms != [] {
      MergePlain(ms[..|ms| - 1]);
      AppendPlain(Merge(ms[..|ms| - 1]), ms[|ms| - 1]);
    }
  }

  /** Merging and sanitising lose nothing but tool blocks: text and images come out in order and role. */
  lemma SanitizeKeepsPlain(ms: seq<Msg>)
    ensures Plain(Sanitize(ms)) == Plain(ms)
  {
    var merged := Merge(ms);
    forall i | 0 <= i < |merged|
      ensures Sanitize(ms)[i].role == merged[i].role
      ensures PlainOf(Sanitize(ms)[i].content) == PlainOf(merged[i].content)
    {
      SanitizedMsgPlain(merged, i);
    }
    PlainPointwise(Sanitize(ms), merged);
    MergePlain(ms);
  }

  // ---------------------------------------------------------------- what merging joins

  /** A user message that holds tool results with an id, and nothing else. */
  predicate OnlyResults(m: Msg) {
    && m.role == User && |m.content| > 0
    && forall k :: 0 <= k < |m.content| ==> m.content[k].ToolResult? && m.content[k].resultId.key.Some?
  }

  /** A message as a whole, or one block of a message that is nothing but results. */
  datatype Piece = Whole(m: Msg) | One(b: Block)

  function Ones(content: seq<Block>): seq<Piece> {
    if content == [] then [] else Ones(content[..|content| - 1]) + [One(content[|content| - 1])]
  }

  function Pieces(ms: seq<Msg>): seq<Piece> {
    if ms == [] then []
    else
      var m := ms[|ms| - 1];
      Pieces(ms[..|ms| - 1]) + if OnlyResults(m) then Ones(m.content) else [Whole(m)]
  }

  /** No two neighbours are both nothing but results. */
  ghost predicate Joined(ms: seq<Msg>) {
    forall i :: 0 < i < |ms| ==> !(OnlyResults(ms[i - 1]) && OnlyResults(ms[i]))
  }

  lemma OnlyResultsIff(m: Msg)
    ensures OnlyResults(m) <==> IsToolResultOnly(m)
  {
    if IsToolResultOnly(m) {
      forall k | 0 <= k < |m.content| ensures m.content[k].ToolResult? && m.content[k].resultId.key.Some? {
        assert m.content[k] in m.content;
      }
    }
  }

  lemma {:induction false} OnesConcat(a: seq<Block>, b: seq<Block>)
    ensures Ones(a + b) == Ones(a) + Ones(b)
  {
    if b == [] {
      assert a + b == a;
    } else {
      assert (a + b)[..|a + b| - 1] == a + b[..|b| - 1];
      OnesConcat(a, b[..|b| - 1]);
    }
  }

  lemma PiecesLast(ms: seq<Msg>, m: Msg)
    ensures Pieces(ms + [m]) == Pieces(ms) + if OnlyResults(m) then Ones(m.content) else [Whole(m)]
  {
    assert (ms + [m])[..|ms|] == ms;
  }

  lemma JoinedPieces(init: seq<Msg>, a: Msg, b: Msg)
    requires OnlyResults(a) && OnlyResults(b)
    ensures OnlyResults(Msg(User, a.content + b.content))
    ensures Pieces(init + [Msg(User, a.content + b.content)]) == Pieces(init + [a]) + Ones(b.content)
  {
    PiecesLast(init, a);
    PiecesLast(init, Msg(User, a.content + b.content));
    OnesConcat(a.content, b.content);
    ConcatThree(Pieces(init), Ones(a.content), Ones(b.content));
  }

  lemma AppendPieces(prior: seq<Msg>, m: Msg)
    requires Joined(prior)
    ensures Joined(Append(prior, m))
    ensures Pieces(Append(prior, m)) == Pieces(prior) + if OnlyResults(m) then Ones(m.content) else [Whole(m)]
  {
    OnlyResultsIff(m);
    if prior != [] {
      OnlyResultsIff(prior[|prior| - 1]);
    }
    if Append(prior, m) == prior + [m] {
      PiecesLast(prior, m);
    } else {
      var init, last := prior[..|prior| - 1], prior[|prior| - 1];
      assert prior == init + [last];
      JoinedPieces(init, last, m);
    }
  }

  /**
   * Merging joins neighbours that hold nothing but results, and nothing else: all other messages stand as they
   * were, the results come in their order, and no two neighbours are left that could be joined.
   */
  lemma {:induction false} MergeJoinsResults(ms: seq<Msg>)
    ensures Joined(Merge(ms)) && Pieces(Merge(ms)) == Pieces(ms)
  {
    if ms != [] {
      MergeJoinsResults(ms[..|ms| - 1]);
      AppendPieces(Merge(ms[..|ms| - 1]), ms[|ms| - 1]);
    }
  }

  // ---------------------------------------------------------------- nothing is empty

  ghost predicate AllNonEmpty(ms: seq<Msg>) {
    forall i :: 0 <= i < |ms| ==> ms[i].content != []
  }

  lemma {:induction false} MergeNonEmpty(ms: seq<Msg>)
    requires AllNonEmpty(ms)
    ensures AllNonEmpty(Merge(ms)) && (ms != [] ==> Merge(ms) != [])
  {
    if ms != [] {
      MergeNonEmpty(ms[..|ms| - 1]);
    }
  }

  /** A list of non-empty messages stays non-empty, and so does each message. */
  lemma SanitizeNonEmpty(ms: seq<Msg>)
    requires AllNonEmpty(ms) && ms != []
    ensures AllNonEmpty(Sanitize(ms)) && Sanitize(ms) != []
  {
    MergeNonEmpty(ms);
  }
}
