/**
 * What a run of the retry engine does, read off the upstream's answers and the URLs tried, without the engine's
 * state: counters are numbers of earlier sends, and the one credits attempt belongs to the first round whose
 * answer allows it.
 */
module AntigravityRetryTrace {
  import opened Options
  import opened AntigravityRetry
  import opened AntigravityRetryBounds

  // ---------------------------------------------------------------- one round

  /** What a round leads to: an end of the run, a sleep and the same URL again, or the next URL. */
  datatype Move = Ends(result: Result) | Again(ms: int) | Onward

  /** The answer gives no retry time in its headers. */
  predicate NoHeaderTime(a: Sent) {
    a.Got? && (a.headerRetryMs == None || a.headerRetryMs == Some(0))
  }

  /** The answer allows a credits attempt: a rate limit without a header time, for an exhausted quota. */
  predicate AllowsCredits(a: Sent) {
    && NoHeaderTime(a) && (a.status == 429 || a.status == 503) && a.body.Classified?
    && a.body.quotaExhausted && !a.body.creditsInjected && a.body.creditsAllowed
  }

  /** How the credits attempt of the round ends, if it makes one; `open`: none has been made. */
  function Attempted(a: Sent, open: bool): Option<Credits> {
    if open && AllowsCredits(a) then Some(a.body.credits) else None
  }

  /** The retry time, 0 when it is not known: a credits attempt that throws forgets the classified one. */
  function RetryTime(a: Sent, open: bool): int
    requires a.Got?
  {
    if !NoHeaderTime(a) then a.headerRetryMs.GetOr(0)
    else if a.body.Classified? && Attempted(a, open) != Some(CreditsThrew) then a.body.retryAfterMs.GetOr(0)
    else 0
  }

  /** The sleep before the same URL is tried again after `n` earlier sends to it; None: it is not. */
  function Wait(a: Sent, n: nat, open: bool): Option<int>
    requires a.Got?
  {
    var ms := RetryTime(a, open);
    if n >= 3 || ms > 60000 || (ms == 0 && a.status != 429 && !a.transientBody) then None
    else if ms != 0 then Some(ms)
    else Some(if n == 0 then 2000 else if n == 1 then 4000 else 8000)
  }

  /** An answer that is not retried here is handed to the policy, and then to the caller. */
  function HandBack(a: Sent, last: bool, retry: bool): Move
    requires a.Got?
  {
    if retry then if last then Ends(AllFailed(a.status)) else Onward
    else if a.delivery.Delivered? then Ends(Returned)
    else if a.delivery.aborted || last then Ends(Thrown(a.delivery.aborted)) else Onward
  }

  /** The move after `n` earlier sends to the URL; `last`: there is no other; `retry`: what the policy says. */
  function MoveOf(a: Sent, n: nat, open: bool, last: bool, retry: bool): Move {
    if a.SendThrew? then if a.aborted || last then Ends(Thrown(a.aborted)) else Onward
    else if a.status != 429 && a.status != 503 then HandBack(a, last, retry)
    else if NoHeaderTime(a) && (a.body.ReadAborted? || Attempted(a, open) == Some(CreditsAborted))
    then Ends(Thrown(true))
    else if Attempted(a, open) == Some(CreditsResult) then Ends(Returned)
    else if Wait(a, n, open).Some? then Again(Wait(a, n, open).value)
    else if !last then Onward
    else HandBack(a, last, retry)
  }

  // ---------------------------------------------------------------- a run as a path

  /** No round before `k` was allowed a credits attempt. */
  ghost predicate Open(up: Upstream, k: nat) {
    forall j: nat :: j < k ==> !AllowsCredits(up(j).sent)
  }

  function PolicySays(policy: Policy, a: Sent, url: nat): bool {
    a.Got? && policy(a.status, url)
  }

  /** The move of round `j` when the URLs tried are `sends`. */
  ghost function MoveAt(up: Upstream, count: nat, policy: Policy, sends: seq<nat>, j: nat): Move
    requires j < |sends|
  {
    MoveOf(up(j).sent, Count(sends[..j], sends[j]), Open(up, j), sends[j] + 1 >= count,
           PolicySays(policy, up(j).sent, sends[j]))
  }

  /** Round `j` was sent, and the round after it went where its move says. */
  ghost predicate Follows(up: Upstream, count: nat, policy: Policy, sends: seq<nat>, j: nat)
    requires j < |sends|
  {
    && up(j).transform.Envelope?
    && (j + 1 < |sends| ==>
          match MoveAt(up, count, policy, sends, j)
          case Ends(_) => false
          case Again(_) => sends[j + 1] == sends[j]
          case Onward => sends[j + 1] == sends[j] + 1)
  }

  /** The sleeps of the rounds from `j` on. */
  ghost function Sleeps(up: Upstream, count: nat, policy: Policy, sends: seq<nat>, j: nat): seq<Pause>
    requires j <= |sends|
    decreases |sends| - j
  {
    if j == |sends| then []
    else
      var move := MoveAt(up, count, policy, sends, j);
      (if move.Again? then [Pause(sends[j], move.ms)] else []) + Sleeps(up, count, policy, sends, j + 1)
  }

  /** The run ends as its last move says, or because the next request cannot be built. */
  ghost predicate EndsWith(up: Upstream, count: nat, policy: Policy, sends: seq<nat>, r: Result) {
    if sends != [] && MoveAt(up, count, policy, sends, |sends| - 1).Ends?
    then r == MoveAt(up, count, policy, sends, |sends| - 1).result
    else if count == 0 then sends == [] && r == AllFailed(0)
    else match up(|sends|).transform
         case Envelope => false
         case Rejected => r == Returned
         case TransformThrew => r == Thrown(false)
  }

  // ---------------------------------------------------------------- the engine's rounds are these moves

  lemma BackoffIs(s: State, url: nat, status: int)
    requires Retries(s, url) < 3
    ensures var n := Retries(s, url);
            Backoff(n + 1, status) == if n == 0 then 2000 else if n == 1 then 4000 else 8000
  {
    assert Power2(1) == 2 && Power2(2) == 4 && Power2(3) == 8;
  }

  /** What a decision means for the run. */
  ghost predicate Decides(s: State, t: State, url: nat, wait: Option<int>, o: RateLimitOutcome) {
    && t.sends == s.sends && t.creditsAttempted == s.creditsAttempted && t.creditsSends == s.creditsSends
    && (wait.Some? <==> o.RetrySameUrl?)
    && (wait.Some? ==> t.sleeps == s.sleeps + [Pause(url, wait.value)]
                       && t.retries == s.retries[url := Retries(s, url) + 1])
    && (wait.None? ==> t.sleeps == s.sleeps && t.retries == s.retries)
  }

  lemma DecideIs(s: State, url: nat, count: nat, a: Sent, retryMs: Option<int>, open: bool)
    requires a.Got? && (a.status == 429 || a.status == 503) && retryMs.GetOr(0) == RetryTime(a, open)
    ensures var (t, o) := Decide(s, url, count, a, retryMs);
            && Decides(s, t, url, Wait(a, Retries(s, url), open), o)
            && (!o.RetrySameUrl? ==>
                  o == if url + 1 < count then RetryNextUrl(a.status) else Fallthrough(retryMs))
  {
    if Retries(s, url) < 3 {
      BackoffIs(s, url, a.status);
    }
  }

  /** The state when the credits attempt of the round, if any, has been made. */
  function Tried(s: State, a: Sent): State {
    if !s.creditsAttempted && AllowsCredits(a)
    then s.(creditsAttempted := true, creditsSends := s.creditsSends + 1) else s
  }

  lemma ResolveIs(s: State, a: Sent)
    requires NoHeaderTime(a) && (a.status == 429 || a.status == 503)
    ensures var (t, r) := ResolveFromBody(s, a.body);
            var open := !s.creditsAttempted;
            && t == Tried(s, a)
            && (r.ResolutionThrew? <==> a.body.ReadAborted? || Attempted(a, open) == Some(CreditsAborted))
            && (r.ResolvedReturn? <==> Attempted(a, open) == Some(CreditsResult))
            && (r.Resolved? ==> r.retryMs.GetOr(0) == RetryTime(a, open))
  {
  }

  /** What the round does to the state, apart from the send. */
  ghost predicate Moves(s: State, t: State, url: nat, a: Sent, m: Move) {
    && t.sends == s.sends
    && t.creditsAttempted == (s.creditsAttempted || AllowsCredits(a))
    && t.creditsSends == s.creditsSends + (if !s.creditsAttempted && AllowsCredits(a) then 1 else 0)
    && t.sleeps == (if m.Again? then s.sleeps + [Pause(url, m.ms)] else s.sleeps)
    && t.retries == if m.Again? then s.retries[url := Retries(s, url) + 1] else s.retries
  }

  lemma RateLimitIs(s: State, url: nat, count: nat, a: Sent, retry: bool)
    requires a.Got? && (a.status == 429 || a.status == 503)
    ensures var (t, o) := RateLimit(s, url, count, a);
            var m := MoveOf(a, Retries(s, url), !s.creditsAttempted, url + 1 >= count, retry);
            && Moves(s, t, url, a, m)
            && match o
               case ReturnNow => m == Ends(Returned)
               case RateLimitThrew => m == Ends(Thrown(true))
               case RetrySameUrl => m.Again?
               case RetryNextUrl(lastStatus) => m == Onward && url + 1 < count
               case Fallthrough(_) => url + 1 >= count && m == HandBack(a, true, retry)
  {
    var open := !s.creditsAttempted;
    if NoHeaderTime(a) {
      ResolveIs(s, a);
      var (t, r) := ResolveFromBody(s, a.body);
      if r.Resolved? {
        DecideIs(t, url, count, a, r.retryMs, open);
      }
    } else {
      DecideIs(s, url, count, a, a.headerRetryMs, open);
    }
  }

  /** The turn that a move stands for. */
  ghost predicate TurnIs(turn: Turn, m: Move, url: nat, count: nat, lastStatus: int) {
    match m
    case Ends(result) =>
      turn == Stop(result) || (turn.Go? && turn.url >= count && result == AllFailed(turn.lastStatus))
    case Again(_) => turn == Go(url, lastStatus)
    case Onward => turn.Go? && turn.url == url + 1 && url + 1 < count
  }

  lemma HandBackIs(s: State, url: nat, count: nat, a: Sent, policy: Policy, lastStatus: int)
    requires a.Got? && url < count
    ensures var (t, o) := AfterRateLimit(s, url, a, policy);
            && t == s && !HandBack(a, url + 1 >= count, policy(a.status, url)).Again?
            && TurnIs(After(o, url, count, lastStatus), HandBack(a, url + 1 >= count, policy(a.status, url)),
                      url, count, lastStatus)
  {
  }

  lemma RoundIs(s: State, url: nat, count: nat, a: Sent, policy: Policy, lastStatus: int)
    requires url < count
    ensures var (t, o) := Attempt(s, url, count, a, policy);
            var m := MoveOf(a, Retries(s, url), !s.creditsAttempted, url + 1 >= count, PolicySays(policy, a, url));
            Moves(Send(s, url), t, url, a, m) && TurnIs(After(o, url, count, lastStatus), m, url, count, lastStatus)
  {
    var sent := Send(s, url);
    if a.Got? {
      if IsRateLimit(a) {
        RateLimitIs(sent, url, count, a, policy(a.status, url));
        HandBackIs(RateLimit(sent, url, count, a).0, url, count, a, policy, lastStatus);
      } else {
        HandBackIs(sent, url, count, a, policy, lastStatus);
      }
    }
  }

  /** What a round does to the state. */
  ghost predicate Goes(s: State, t: State, url: nat, a: Sent, m: Move) {
    && t.sends == s.sends + [url]
    && t.creditsAttempted == (s.creditsAttempted || AllowsCredits(a))
    && t.creditsSends == s.creditsSends + (if !s.creditsAttempted && AllowsCredits(a) then 1 else 0)
    && t.sleeps == s.sleeps + (if m.Again? then [Pause(url, m.ms)] else [])
    && forall u: nat :: Retries(t, u) == Retries(s, u) + if m.Again? && u == url then 1 else 0
  }

  function NextUrl(m: Move, url: nat): nat {
    if m.Again? then url else url + 1
  }

  /** The run is over, or goes on after the move. */
  ghost predicate Continues(up: Upstream, count: nat, policy: Policy, url: nat, k: nat, s: State, lastStatus: int,
                            t: State, m: Move, status: int) {
    var run := RunFrom(up, count, policy, url, k, s, lastStatus);
    if m.Ends? then run == (t, m.result) else run == RunFrom(up, count, policy, NextUrl(m, url), k + 1, t, status)
  }

  /** One round of a run: its move, and the run that is left, for any upstream with that answer. */
  lemma RunUnfolds(up: Upstream, count: nat, policy: Policy, url: nat, k: nat, s: State, lastStatus: int)
    returns (t: State, m: Move, status: int)
    requires url < count && up(k).transform.Envelope?
    ensures m == MoveOf(up(k).sent, Retries(s, url), !s.creditsAttempted, url + 1 >= count,
                        PolicySays(policy, up(k).sent, url))
    ensures Goes(s, t, url, up(k).sent, m)
    ensures m.Again? ==> Retries(s, url) < MAX_AUTO_RETRIES
    ensures !m.Ends? ==> NextUrl(m, url) < count
    ensures forall other: Upstream :: other(k) == up(k) ==>
              Continues(other, count, policy, url, k, s, lastStatus, t, m, status)
  {
    var s0, a := InitCounter(s, url), up(k).sent;
    var (t', o) := Attempt(s0, url, count, a, policy);
    t := t';
    m := MoveOf(a, Retries(s0, url), !s0.creditsAttempted, url + 1 >= count, PolicySays(policy, a, url));
    RoundIs(s0, url, count, a, policy, lastStatus);
    SameUrlUsesRetry(s0, url, count, a, policy);
    var turn := After(o, url, count, lastStatus);
    status := if turn.Go? then turn.lastStatus else lastStatus;
    forall other: Upstream | other(k) == up(k)
      ensures Continues(other, count, policy, url, k, s, lastStatus, t, m, status)
    {
      UnfoldOnce(other, count, policy, url, k, s, lastStatus, t, o);
    }
  }

  lemma UnfoldOnce(up: Upstream, count: nat, policy: Policy, url: nat, k: nat, s: State, lastStatus: int, t: State,
                   o: AttemptOutcome)
    requires url < count && up(k).transform.Envelope?
    requires (t, o) == Attempt(InitCounter(s, url), url, count, up(k).sent, policy)
    ensures RunFrom(up, count, policy, url, k, s, lastStatus)
            == match After(o, url, count, lastStatus)
               case Stop(result) => (t, result)
               case Go(next, status) => RunFrom(up, count, policy, next, k + 1, t, status)
  {
    SameUrlUsesRetry(InitCounter(s, url), url, count, up(k).sent, policy);
  }

  // ---------------------------------------------------------------- every run is a path

  /** What the engine's state says about the rounds before `k`. */
  ghost predicate Tracks(up: Upstream, url: nat, k: nat, s: State) {
    && |s.sends| == k
    && (forall u: nat :: u >= url ==> Retries(s, u) == Count(s.sends, u))
    && s.creditsAttempted == !Open(up, k)
  }

  lemma OpenNext(up: Upstream, k: nat)
    ensures Open(up, k + 1) <==> Open(up, k) && !AllowsCredits(up(k).sent)
  {
  }

  lemma TracksNext(up: Upstream, url: nat, k: nat, s: State, t: State, m: Move)
    requires Tracks(up, url, k, s) && Goes(s, t, url, up(k).sent, m)
    ensures Tracks(up, NextUrl(m, url), k + 1, t)
  {
    OpenNext(up, k);
    forall u: nat | u >= NextUrl(m, url) ensures Retries(t, u) == Count(t.sends, u) {
      CountLast(s.sends, url, u);
    }
  }

  /** From round `k` on the run is a path. */
  ghost predicate PathFrom(up: Upstream, count: nat, policy: Policy, k: nat, s: State, t: State, r: Result) {
    && s.sends <= t.sends && |s.sends| == k
    && (forall j :: k <= j < |t.sends| ==> Follows(up, count, policy, t.sends, j))
    && t.sleeps == s.sleeps + Sleeps(up, count, policy, t.sends, k)
    && t.creditsSends == s.creditsSends + (if Open(up, k) && !Open(up, |t.sends|) then 1 else 0)
  }

  lemma MoveOfRound(up: Upstream, count: nat, policy: Policy, url: nat, k: nat, s: State, sends: seq<nat>)
    requires Tracks(up, url, k, s) && s.sends + [url] <= sends
    ensures MoveAt(up, count, policy, sends, k)
            == MoveOf(up(k).sent, Retries(s, url), !s.creditsAttempted, url + 1 >= count,
                      PolicySays(policy, up(k).sent, url))
  {
    assert sends[..k] == s.sends;
  }

  /** One round in front of a path. */
  lemma PathStep(up: Upstream, count: nat, policy: Policy, url: nat, k: nat, s: State, t: State, end: State,
                 r: Result, m: Move)
    requires Tracks(up, url, k, s) && up(k).transform.Envelope? && Goes(s, t, url, up(k).sent, m)
    requires PathFrom(up, count, policy, k + 1, t, end, r)
    requires m == MoveAt(up, count, policy, end.sends, k)
    requires |end.sends| > k + 1 ==> !m.Ends? && end.sends[k + 1] == NextUrl(m, url)
    ensures PathFrom(up, count, policy, k, s, end, r)
  {
    OpenNext(up, k);
    assert end.sends[k] == url && s.sends <= end.sends;
    StayShut(up, k + 1, |end.sends|);
  }

  lemma StayShut(up: Upstream, j: nat, k: nat)
    requires j <= k
    ensures Open(up, k) ==> Open(up, j)
  {
  }

  /** The run from round `k` on: a path, with the end that the last move says. */
  lemma {:induction false} RunFollows(up: Upstream, count: nat, policy: Policy, url: nat, k: nat, s: State,
                                      lastStatus: int)
    requires Tracks(up, url, k, s) && url < count
    ensures var (t, r) := RunFrom(up, count, policy, url, k, s, lastStatus);
            && PathFrom(up, count, policy, k, s, t, r)
            && (|t.sends| > k ==> t.sends[k] == url && EndsWith(up, count, policy, t.sends, r))
            && (|t.sends| == k ==>
                  match up(k).transform
                  case Envelope => false
                  case Rejected => r == Returned
                  case TransformThrew => r == Thrown(false))
    decreases count - url, MAX_AUTO_RETRIES - Retries(s, url)
  {
    if up(k).transform.Envelope? {
      var t, m, status := RunUnfolds(up, count, policy, url, k, s, lastStatus);
      var (end, r) := RunFrom(up, count, policy, url, k, s, lastStatus);
      assert Continues(up, count, policy, url, k, s, lastStatus, t, m, status);
      if !m.Ends? {
        TracksNext(up, url, k, s, t, m);
        RunFollows(up, count, policy, NextUrl(m, url), k + 1, t, status);
      }
      MoveOfRound(up, count, policy, url, k, s, end.sends);
      PathStep(up, count, policy, url, k, s, t, end, r, m);
    }
  }

  /**
   * Every run, whatever the upstream answers, is the path that its answers say: each round is followed by a
   * sleep and the same URL, by the next URL, or by nothing, as `MoveOf` says from the answer, the number of earlier
   * sends to the URL and whether an earlier answer allowed the credits attempt. The sleeps are those of the
   * path, one credits attempt is made if and only if some answer allowed one, and the last move gives the result.
   */
  lemma RunIsPath(up: Upstream, count: nat, policy: Policy)
    ensures var (t, r) := ExecuteOnce(up, count, policy);
            && (t.sends != [] ==> t.sends[0] == 0)
            && (forall j :: 0 <= j < |t.sends| ==> Follows(up, count, policy, t.sends, j))
            && t.sleeps == Sleeps(up, count, policy, t.sends, 0)
            && t.creditsSends == (if exists j: nat :: j < |t.sends| && AllowsCredits(up(j).sent) then 1 else 0)
            && EndsWith(up, count, policy, t.sends, r)
  {
    if count > 0 {
      RunFollows(up, count, policy, 0, 0, FRESH, 0);
    }
  }

  // ---------------------------------------------------------------- the credits attempt

  /** A run that has ended by round `k` does not depend on later answers. */
  lemma {:induction false} SameRun(up: Upstream, other: Upstream, count: nat, policy: Policy, k: nat, url: nat,
                                   j: nat, s: State, lastStatus: int)
    requires SameUpTo(up, other, k) && Tracks(up, url, j, s) && j <= k
    requires var sends := RunFrom(up, count, policy, url, j, s, lastStatus).0.sends;
             |sends| <= k || (|sends| == k + 1 && MoveAt(up, count, policy, sends, k).Ends?)
    ensures RunFrom(up, count, policy, url, j, s, lastStatus) == RunFrom(other, count, policy, url, j, s, lastStatus)
    decreases count - url, MAX_AUTO_RETRIES - Retries(s, url)
  {
    if url < count && up(j).transform.Envelope? {
      var t, m, status := RunUnfolds(up, count, policy, url, j, s, lastStatus);
      assert Continues(up, count, policy, url, j, s, lastStatus, t, m, status);
      assert Continues(other, count, policy, url, j, s, lastStatus, t, m, status);
      if !m.Ends? {
        var sends := RunFrom(up, count, policy, url, j, s, lastStatus).0.sends;
        TracksNext(up, url, j, s, t, m);
        RunFollows(up, count, policy, NextUrl(m, url), j + 1, t, status);
        MoveOfRound(up, count, policy, url, j, s, sends);
        SameRun(up, other, count, policy, k, NextUrl(m, url), j + 1, t, status);
      }
    }
  }

  /** Round `k` makes the one credits attempt, if the run gets there. */
  ghost predicate AttemptsAt(up: Upstream, k: nat) {
    Open(up, k) && AllowsCredits(up(k).sent)
  }

  /**
   * A credits attempt that yields a result ends the run. Whatever the upstream answers before: no send follows
   * it, a run that gets there returns, and state and result do not depend on any later answer.
   */
  lemma CreditsResultEnds(up: Upstream, other: Upstream, count: nat, policy: Policy, k: nat)
    requires AttemptsAt(up, k) && up(k).sent.body.credits == CreditsResult && SameUpTo(up, other, k)
    ensures var (t, r) := ExecuteOnce(up, count, policy);
            && |t.sends| <= k + 1
            && (|t.sends| == k + 1 ==> r == Returned && t.creditsSends == 1)
            && (t, r) == ExecuteOnce(other, count, policy)
  {
    RunIsPath(up, count, policy);
    var (t, r) := ExecuteOnce(up, count, policy);
    if |t.sends| > k {
      assert Follows(up, count, policy, t.sends, k);
      assert MoveAt(up, count, policy, t.sends, k) == Ends(Returned);
    }
    if count > 0 {
      SameRun(up, other, count, policy, k, 0, 0, FRESH, 0);
    }
  }

  /** The same answer with credits not allowed. */
  function Refused(a: Answer): Answer {
    if a.sent.Got? && a.sent.body.Classified?
    then a.(sent := a.sent.(body := a.sent.body.(creditsAllowed := false))) else a
  }

  function WithoutCredits(up: Upstream, k: nat): Upstream {
    (j: nat) => if j < k then up(j) else Refused(up(j))
  }

  /** The two upstreams mean the same moves. */
  ghost predicate SameMoves(up: Upstream, other: Upstream, policy: Policy) {
    forall j: nat ::
      && up(j).transform == other(j).transform
      && (forall url :: PolicySays(policy, up(j).sent, url) == PolicySays(policy, other(j).sent, url))
      && (forall n, last, retry :: MoveOf(up(j).sent, n, Open(up, j), last, retry)
                                   == MoveOf(other(j).sent, n, Open(other, j), last, retry))
  }

  lemma {:induction false} LikeRun(up: Upstream, other: Upstream, count: nat, policy: Policy, url: nat, j: nat,
                                   s: State, s': State, lastStatus: int, lastStatus': int)
    requires SameMoves(up, other, policy) && Tracks(up, url, j, s) && Tracks(other, url, j, s')
    requires s.sends == s'.sends && s.sleeps == s'.sleeps && url < count
    ensures var (t, r) := RunFrom(up, count, policy, url, j, s, lastStatus);
            var (t', r') := RunFrom(other, count, policy, url, j, s', lastStatus');
            t.sends == t'.sends && t.sleeps == t'.sleeps && r == r'
    decreases count - url, MAX_AUTO_RETRIES - Retries(s, url)
  {
    if up(j).transform.Envelope? {
      var t, m, status := RunUnfolds(up, count, policy, url, j, s, lastStatus);
      var t', m', status' := RunUnfolds(other, count, policy, url, j, s', lastStatus');
      assert Continues(up, count, policy, url, j, s, lastStatus, t, m, status);
      assert Continues(other, count, policy, url, j, s', lastStatus', t', m', status');
      assert m == m';
      if !m.Ends? {
        TracksNext(up, url, j, s, t, m);
        TracksNext(other, url, j, s', t', m);
        LikeRun(up, other, count, policy, NextUrl(m, url), j + 1, t, t', status, status');
      }
    }
  }

  lemma RefusedMove(a: Answer, open: bool)
    requires open && AllowsCredits(a.sent) ==> a.sent.body.credits == CreditsNull
    ensures !AllowsCredits(Refused(a).sent) && Refused(a).transform == a.transform
    ensures forall n, o, last, retry ::
              MoveOf(a.sent, n, open, last, retry) == MoveOf(Refused(a).sent, n, o, last, retry)
  {
  }

  lemma WithoutCreditsMoves(up: Upstream, policy: Policy, k: nat)
    requires AttemptsAt(up, k) && up(k).sent.body.credits == CreditsNull
    ensures SameMoves(up, WithoutCredits(up, k), policy)
    ensures forall j: nat :: !AllowsCredits(WithoutCredits(up, k)(j).sent)
  {
    var other := WithoutCredits(up, k);
    forall j: nat ensures !AllowsCredits(other(j).sent) {
      if j >= k {
        RefusedMove(up(j), false);
      }
    }
    forall j: nat
      ensures up(j).transform == other(j).transform
      ensures forall n, last, retry :: MoveOf(up(j).sent, n, Open(up, j), last, retry)
                                       == MoveOf(other(j).sent, n, Open(other, j), last, retry)
    {
      if j >= k {
        assert j > k ==> !Open(up, j);
        RefusedMove(up(j), Open(up, j));
      }
    }
  }

  /**
   * A credits attempt that comes back empty changes nothing else: the run sends, sleeps and ends as if credits had
   * not been allowed, so it goes on with the classified retry time.
   */
  lemma NullAttemptChangesNothing(up: Upstream, count: nat, policy: Policy, k: nat)
    requires AttemptsAt(up, k) && up(k).sent.body.credits == CreditsNull
    ensures var (t, r) := ExecuteOnce(up, count, policy);
            var (t', r') := ExecuteOnce(WithoutCredits(up, k), count, policy);
            t.sends == t'.sends && t.sleeps == t'.sleeps && r == r' && t'.creditsSends == 0
  {
    var other := WithoutCredits(up, k);
    WithoutCreditsMoves(up, policy, k);
    RunIsPath(other, count, policy);
    if count > 0 {
      LikeRun(up, other, count, policy, 0, 0, FRESH, FRESH, 0, 0);
    }
  }
}
