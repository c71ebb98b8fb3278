/**
 * The sanitiser as the source runs it: message objects are changed in place, runs of results are
 * pushed into the first message of the run, and a running map of permits is spent block by block.
 * Each method is proved against the positional specification in BedrockSanitizer.
 */
module BedrockSanitizerCode {
  import opened Integers
  import opened Options
  import opened BedrockMessages
  import opened BedrockSanitizer

  ghost predicate AllDistinct(ms: seq<Message>) {
    forall i, j :: 0 <= i < j < |ms| ==> ms[i] != ms[j]
  }

  ghost predicate Shows(ms: seq<Message>, views: seq<Msg>)
    reads ms
  {
    |ms| == |views| && forall k :: 0 <= k < |ms| ==> ms[k].View() == views[k]
  }

  method CanJoin(merged: seq<Message>, message: Message, ghost prior: seq<Msg>, ghost m: Msg)
    returns (joins: bool)
    requires Shows(merged, prior) && message.View() == m
    ensures joins == (prior != [] && IsToolResultOnly(prior[|prior| - 1]) && IsToolResultOnly(m))
  {
    assert merged != [] ==> merged[|merged| - 1].View() == prior[|prior| - 1];
    joins := merged != [] && IsToolResultOnly(merged[|merged| - 1].View()) && IsToolResultOnly(message.View());
  }

  /** Where the in-place merge stands: `merged` shows `joined`, the messages from `i` on are untouched. */
  ghost predicate MergedTo(messages: seq<Message>, before: seq<Msg>, i: nat,
                           merged: seq<Message>, joined: seq<Msg>)
    reads messages, merged
  {
    && |messages| == |before| && i <= |messages| && Shows(merged, joined)
    && (forall m :: m in merged ==> m in messages[..i])
    && (forall k :: i <= k < |messages| ==> messages[k].View() == before[k])
  }

  method PushResults(merged: seq<Message>, message: Message, ghost joined: seq<Msg>)
    requires merged != [] && Shows(merged, joined) && AllDistinct(merged) && message !in merged
    modifies merged[|merged| - 1]
    ensures Shows(merged, joined[|joined| - 1 :=
                Msg(merged[|merged| - 1].role, joined[|joined| - 1].content + message.content)])
  {
    var previous := merged[|merged| - 1];
    assert previous.View() == joined[|joined| - 1];
    previous.content := previous.content + message.content;
  }

  /** Runs of result-only messages are pushed into the first message of the run. */
  method MergeConsecutiveToolResultMessages(messages: seq<Message>, ghost before: seq<Msg>)
    returns (merged: seq<Message>)
    requires AllDistinct(messages) && Shows(messages, before)
    modifies messages
    ensures Shows(merged, Merge(before)) && AllDistinct(merged)
    ensures forall k :: 0 <= k < |merged| ==> merged[k] in messages
  {
    merged := [];
    for i := 0 to |messages|
      invariant AllDistinct(merged) && MergedTo(messages, before, i, merged, Merge(before[..i]))
    {
      MergeStep(before, i);
      merged := AppendMessage(messages, i, merged, before, Merge(before[..i]));
    }
    assert before[..|messages|] == before;
    forall k | 0 <= k < |merged| ensures merged[k] in messages {
      assert merged[k] in merged;
    }
  }

  method AppendMessage(messages: seq<Message>, i: nat, merged: seq<Message>,
                       ghost before: seq<Msg>, ghost joined: seq<Msg>)
    returns (r: seq<Message>)
    requires AllDistinct(messages) && AllDistinct(merged) && i < |messages|
    requires MergedTo(messages, before, i, merged, joined)
    modifies messages
    ensures AllDistinct(r) && MergedTo(messages, before, i + 1, r, Append(joined, before[i]))
  {
    var message := messages[i];
    assert messages[..i + 1] == messages[..i] + [message];
    forall k | i <= k < |messages| ensures messages[k] !in merged {
      assert messages[k] !in messages[..i];
    }
    assert merged != [] ==> merged[|merged| - 1] in merged;
    var joins := CanJoin(merged, message, joined, before[i]);
    ghost var next := AppendCase(joined, before[i], joins);
    if joins {
      PushResults(merged, message, joined);
      r := merged;
    } else {
      r := merged + [message];
    }
  }

  lemma MergeStep(ms: seq<Msg>, i: nat)
    requires i < |ms|
    ensures Merge(ms[..i + 1]) == Append(Merge(ms[..i]), ms[i])
  {
    assert ms[..i + 1][..i] == ms[..i];
  }

  lemma AppendCase(prior: seq<Msg>, m: Msg, joins: bool) returns (r: seq<Msg>)
    requires joins
      == (prior != [] && IsToolResultOnly(prior[|prior| - 1]) && IsToolResultOnly(m))
    ensures r == Append(prior, m)
    ensures !joins ==> r == prior + [m]
    ensures joins ==> r == prior[|prior| - 1 := Msg(User, prior[|prior| - 1].content + m.content)]
  {
    r := Append(prior, m);
  }

  /** The budget the second pass starts from and spends: an absent id has no permits. */
  function Budget(counts: map<string, nat>, x: string): nat {
    if x in counts then counts[x] else 0
  }

  method AddPermits(counts: map<string, nat>, allowed: set<string>) returns (r: map<string, nat>)
    ensures forall x :: Budget(r, x) == Budget(counts, x) + if x in allowed then 1 else 0
  {
    r := counts;
    var todo := allowed;
    while todo != {}
      invariant todo <= allowed
      invariant forall x ::
        Budget(r, x) == Budget(counts, x) + if x in allowed && x !in todo then 1 else 0
    {
      var id :| id in todo;
      r := r[id := Budget(r, id) + 1];
      todo := todo - {id};
    }
  }

  method FilterContent(content: seq<Block>, allowed: set<string>) returns (kept: seq<Block>)
    ensures kept == FilterUses(content, allowed)
  {
    kept := [];
    for p := 0 to |content|
      invariant kept == FilterUses(content[..p], allowed)
    {
      assert content[..p + 1][..p] == content[..p];
      var id := UseIdOf(content[p]);
      if id.None? || id.value in allowed {
        kept := kept + [content[p]];
      }
    }
    assert content[..|content|] == content;
  }

  /** `counts` holds what `spare` has left once the results in `before` have gone by. */
  ghost predicate Covers(counts: map<string, nat>, before: seq<Block>, spare: string -> int) {
    forall x :: Budget(counts, x) == Max(spare(x) - ResultCount(before, x), 0)
  }

  /** One message of the second pass: the running budget keeps what `KeepFirst` keeps. */
  method SpendPermits(content: seq<Block>, counts: map<string, nat>, ghost spare: string -> int)
    returns (kept: seq<Block>, left: map<string, nat>)
    requires Covers(counts, [], spare)
    ensures kept == KeepFirst(content, spare) && Covers(left, content, spare)
  {
    kept, left := [], counts;
    for p := 0 to |content|
      invariant kept == KeepFirst(content[..p], spare)
      invariant Covers(left, content[..p], spare)
    {
      var b := content[p];
      assert content[..p + 1][..p] == content[..p];
      var id := ResultIdOf(b);
      if id.None? {
        kept := kept + [b];
      } else if Budget(left, id.value) > 0 {
        left := left[id.value := Budget(left, id.value) - 1];
        kept := kept + [b];
      }
    }
    assert content[..|content|] == content;
  }

  /** The content of message `k` between the passes: calls are filtered, results are not. */
  function AfterFirstPass(ms: seq<Msg>, k: nat): seq<Block>
    requires k < |ms|
  {
    if ms[k].role.Assistant? then SanitizedUses(ms, k) else ms[k].content
  }

  /** The list when the first pass has dealt with its first `n` messages. */
  function FirstPass(ms: seq<Msg>, n: nat): (r: seq<Msg>)
    requires n <= |ms|
    ensures |r| == |ms|
  {
    if n == 0 then ms
    else FirstPass(ms, n - 1)[n - 1 := Msg(ms[n - 1].role, AfterFirstPass(ms, n - 1))]
  }

  /** The list when, after the whole first pass, the second has dealt with its first `n` messages. */
  function SecondPass(ms: seq<Msg>, n: nat): (r: seq<Msg>)
    requires n <= |ms|
    ensures |r| == |ms|
  {
    if n == 0 then FirstPass(ms, |ms|) else SecondPass(ms, n - 1)[n - 1 := SanitizedMsg(ms, n - 1)]
  }

  lemma {:induction false} FirstPassAt(ms: seq<Msg>, n: nat, k: nat)
    requires n <= |ms| && k < |ms|
    ensures FirstPass(ms, n)[k] == if k < n then Msg(ms[k].role, AfterFirstPass(ms, k)) else ms[k]
  {
    if n > 0 {
      FirstPassAt(ms, n - 1, k);
    }
  }

  lemma {:induction false} SecondPassAt(ms: seq<Msg>, n: nat, k: nat)
    requires n <= |ms| && k < |ms|
    ensures SecondPass(ms, n)[k]
            == if k < n then SanitizedMsg(ms, k) else Msg(ms[k].role, AfterFirstPass(ms, k))
  {
    if n > 0 {
      SecondPassAt(ms, n - 1, k);
    } else {
      FirstPassAt(ms, |ms|, k);
    }
  }

  /** The two passes, one message after the other, give the positional specification. */
  lemma {:induction false} PassesSanitize(ms: seq<Msg>)
    ensures SecondPass(ms, |ms|) == SanitizeMerged(ms)
  {
    forall k | 0 <= k < |ms| ensures SecondPass(ms, |ms|)[k] == SanitizedMsg(ms, k) {
      SecondPassAt(ms, |ms|, k);
    }
  }

  /** Where the first pass stands before message `n`. */
  ghost predicate FirstPassedTo(normalized: seq<Message>, ms: seq<Msg>, counts: map<string, nat>, n: nat)
    reads normalized
  {
    && n <= |ms| && Shows(normalized, FirstPass(ms, n))
    && forall x :: Budget(counts, x) == Permits(ms, x, n)
  }

  /** Where the second pass stands before message `n`. */
  ghost predicate SecondPassedTo(normalized: seq<Message>, ms: seq<Msg>, counts: map<string, nat>, n: nat)
    reads normalized
  {
    n <= |ms| && Shows(normalized, SecondPass(ms, n)) && Covers(counts, [], Spare(ms, n))
  }

  method FilterMessage(message: Message, counts: map<string, nat>, nextResultIds: set<string>,
                       ghost ms: seq<Msg>, ghost i: nat)
    returns (r: map<string, nat>)
    requires i < |ms| && message.View() == ms[i]
    requires message.role.Assistant? ==> nextResultIds == NextResultIds(ms, i)
    requires forall x :: Budget(counts, x) == Permits(ms, x, i)
    modifies message
    ensures message.content == AfterFirstPass(ms, i)
    ensures forall x :: Budget(r, x) == Permits(ms, x, i + 1)
  {
    r := counts;
    if message.role.Assistant? {
      var toolUseIds := UseIds(message.content);
      if toolUseIds != {} {
        var allowedIds := toolUseIds * nextResultIds;
        var kept := FilterContent(message.content, allowedIds);
        message.content := NonEmpty(kept);
        r := AddPermits(counts, allowedIds);
      }
    }
  }

  method ReadNextResultIds(normalized: seq<Message>, i: nat, ghost ms: seq<Msg>) returns (ids: set<string>)
    requires |ms| == |normalized| && i < |ms| && Shows(normalized, FirstPass(ms, i))
    ensures ids == NextResultIds(ms, i)
  {
    ids := {};
    if i + 1 < |normalized| {
      FirstPassAt(ms, i, i + 1);
      assert normalized[i + 1].View() == ms[i + 1];
      if normalized[i + 1].role.User? {
        ids := ResultIds(normalized[i + 1].content);
      }
    }
  }

  method FilterAt(normalized: seq<Message>, i: nat, counts: map<string, nat>, ghost ms: seq<Msg>)
    returns (r: map<string, nat>)
    requires AllDistinct(normalized) && i < |normalized| == |ms|
    requires FirstPassedTo(normalized, ms, counts, i)
    modifies normalized[i]
    ensures FirstPassedTo(normalized, ms, r, i + 1)
  {
    FirstPassAt(ms, i, i);
    assert normalized[i].View() == ms[i];
    var nextResultIds := ReadNextResultIds(normalized, i, ms);
    r := FilterMessage(normalized[i], counts, nextResultIds, ms, i);
  }

  /** First pass: drop the calls that the next message does not answer, and count permits. */
  method DropUnansweredUses(normalized: seq<Message>, ghost ms: seq<Msg>)
    returns (validResultCounts: map<string, nat>)
    requires AllDistinct(normalized) && Shows(normalized, ms)
    modifies normalized
    ensures FirstPassedTo(normalized, ms, validResultCounts, |ms|)
  {
    validResultCounts := map[];
    for i := 0 to |normalized|
      invariant FirstPassedTo(normalized, ms, validResultCounts, i)
    {
      validResultCounts := FilterAt(normalized, i, validResultCounts, ms);
    }
  }

  method SpendMessage(message: Message, counts: map<string, nat>, ghost ms: seq<Msg>, ghost j: nat)
    returns (left: map<string, nat>)
    requires j < |ms| && message.role == ms[j].role && message.content == AfterFirstPass(ms, j)
    requires Covers(counts, [], Spare(ms, j))
    modifies message
    ensures message.View() == SanitizedMsg(ms, j) && Covers(left, [], Spare(ms, j + 1))
  {
    left := counts;
    if message.role.User? {
      var kept;
      kept, left := SpendPermits(message.content, counts, Spare(ms, j));
      message.content := NonEmpty(kept);
    }
  }

  method SpendAt(normalized: seq<Message>, j: nat, counts: map<string, nat>, ghost ms: seq<Msg>)
    returns (left: map<string, nat>)
    requires AllDistinct(normalized) && j < |normalized| == |ms|
    requires SecondPassedTo(normalized, ms, counts, j)
    modifies normalized[j]
    ensures SecondPassedTo(normalized, ms, left, j + 1)
  {
    SecondPassAt(ms, j, j);
    assert normalized[j].View() == SecondPass(ms, j)[j];
    left := SpendMessage(normalized[j], counts, ms, j);
  }

  /** Second pass: spend the permits on the results, message by message. */
  method DropUnpaidResults(normalized: seq<Message>, counts: map<string, nat>, ghost ms: seq<Msg>)
    requires AllDistinct(normalized) && |normalized| == |ms| && SecondPassedTo(normalized, ms, counts, 0)
    modifies normalized
    ensures Shows(normalized, SecondPass(ms, |ms|))
  {
    var left := counts;
    for j := 0 to |normalized|
      invariant SecondPassedTo(normalized, ms, left, j)
    {
      left := SpendAt(normalized, j, left, ms);
    }
  }

  /**
   * Both passes in place. The result is `Sanitize` of the message list as it was on entry, and only
   * the given message objects change.
   */
  method SanitizeBedrockToolPairs(messages: seq<Message>) returns (normalized: seq<Message>)
    requires AllDistinct(messages)
    modifies messages
    ensures Shows(normalized, Sanitize(old(Views(messages))))
    ensures forall k :: 0 <= k < |normalized| ==> normalized[k] in messages
  {
    ghost var ms := Merge(Views(messages));
    normalized := MergeConsecutiveToolResultMessages(messages, Views(messages));
    var validResultCounts := DropUnansweredUses(normalized, ms);
    DropUnpaidResults(normalized, validResultCounts, ms);
    PassesSanitize(ms);
  }
}
