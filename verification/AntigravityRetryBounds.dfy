/**
 * What holds of every run of the retry engine, whatever the upstream answers: bounds on sends, sleeps and
 * credits attempts, that they are reached, and how a run ends.
 */
module AntigravityRetryBounds {
  import opened Integers
  import opened Options
  import opened AntigravityRetry

  // ---------------------------------------------------------------- bounds over every run

  /** The sleep of the whole run. */
  function Slept(xs: seq<Pause>): int {
    if xs == [] then 0 else Slept(xs[..|xs| - 1]) + xs[|xs| - 1].ms
  }

  /** The sleep on one URL. */
  function SleptAt(xs: seq<Pause>, url: nat): int {
    if xs == [] then 0 else SleptAt(xs[..|xs| - 1], url) + if xs[|xs| - 1].url == url then xs[|xs| - 1].ms else 0
  }

  function Count(xs: seq<nat>, x: nat): nat {
    if xs == [] then 0 else Count(xs[..|xs| - 1], x) + if xs[|xs| - 1] == x then 1 else 0
  }

  lemma SleptLast(xs: seq<Pause>, x: Pause, url: nat)
    ensures Slept(xs + [x]) == Slept(xs) + x.ms
    ensures SleptAt(xs + [x], url) == SleptAt(xs, url) + if x.url == url then x.ms else 0
  {
    assert (xs + [x])[..|xs|] == xs;
  }

  lemma CountLast(xs: seq<nat>, y: nat, x: nat)
    ensures Count(xs + [y], x) == Count(xs, x) + if y == x then 1 else 0
  {
    assert (xs + [y])[..|xs|] == xs;
  }

  /** What holds when the loop is about to try `url`, after `done` sends to it already. */
  ghost predicate Within(s: State, url: nat, done: nat) {
    && done <= MAX_AUTO_RETRIES + 1
    && |s.sends| <= (MAX_AUTO_RETRIES + 1) * url + done
    && Slept(s.sleeps) <= MAX_RETRY_AFTER_MS * |s.sleeps|
    && (forall u: nat :: SleptAt(s.sleeps, u) <= SleepAllowed(s, url, u))
    && |s.sleeps| <= MAX_AUTO_RETRIES * url + Retries(s, url) && Retries(s, url) <= MAX_AUTO_RETRIES
    && s.creditsSends == (if s.creditsAttempted then 1 else 0)
    && (forall u: nat :: Count(s.sends, u) <= if u < url then MAX_AUTO_RETRIES + 1 else if u == url then done else 0)
    && (forall u | u in s.retries :: u <= url)
    && Ordered(s.sends, url)
  }

  /** How long the run may have slept on `u` when it is at `url`. */
  function SleepAllowed(s: State, url: nat, u: nat): nat {
    if u < url then MAX_AUTO_RETRIES * MAX_RETRY_AFTER_MS
    else if u == url then Retries(s, url) * MAX_RETRY_AFTER_MS else 0
  }

  /** URLs are tried from the first on, in order, none skipped on the way back. */
  ghost predicate Ordered(sends: seq<nat>, url: nat) {
    && (forall i :: 0 <= i < |sends| ==> sends[i] <= url)
    && (forall i, j :: 0 <= i < j < |sends| ==> sends[i] <= sends[j])
  }

  lemma BackoffBound(retry: nat, status: int)
    ensures Backoff(retry, status) <= MAX_RETRY_AFTER_MS
  {
  }

  lemma SleepWithin(s: State, url: nat, ms: int, done: nat)
    requires Within(s, url, done) && Retries(s, url) < MAX_AUTO_RETRIES && ms <= MAX_RETRY_AFTER_MS
    ensures Within(Sleep(s, url, ms), url, done)
  {
    forall u: nat
      ensures SleptAt(s.sleeps + [Pause(url, ms)], u) == SleptAt(s.sleeps, u) + (if url == u then ms else 0)
      ensures Slept(s.sleeps + [Pause(url, ms)]) == Slept(s.sleeps) + ms
    {
      SleptLast(s.sleeps, Pause(url, ms), u);
    }
    SleptLast(s.sleeps, Pause(url, ms), url);
  }

  lemma SendWithin(s: State, url: nat)
    requires Within(s, url, Retries(s, url))
    ensures Within(Send(s, url), url, Retries(s, url) + 1)
  {
    forall u: nat ensures Count(s.sends + [url], u) == Count(s.sends, u) + (if url == u then 1 else 0) {
      CountLast(s.sends, url, u);
    }
  }

  lemma DecideWithin(s: State, url: nat, count: nat, a: Sent, retryMs: Option<int>, done: nat)
    requires a.Got? && Within(s, url, done)
    ensures var (t, o) := Decide(s, url, count, a, retryMs);
            && Within(t, url, done)
            && Retries(t, url) == Retries(s, url) + (if o.RetrySameUrl? then 1 else 0)
  {
    if Retries(s, url) < MAX_AUTO_RETRIES {
      if Truthy(retryMs) {
        SleepWithin(s, url, Min(retryMs.value, MAX_RETRY_AFTER_MS), done);
      } else {
        BackoffBound(Retries(s, url) + 1, a.status);
        SleepWithin(s, url, Backoff(Retries(s, url) + 1, a.status), done);
      }
    }
  }

  lemma ResolveWithin(s: State, url: nat, b: Body, done: nat)
    requires Within(s, url, done)
    ensures var (t, r) := ResolveFromBody(s, b);
            Within(t, url, done) && t.retries == s.retries
  {
  }

  lemma RateLimitWithin(s: State, url: nat, count: nat, a: Sent, done: nat)
    requires a.Got? && Within(s, url, done)
    ensures var (t, o) := RateLimit(s, url, count, a);
            && Within(t, url, done)
            && Retries(t, url) == Retries(s, url) + (if o.RetrySameUrl? then 1 else 0)
  {
    if Truthy(a.headerRetryMs) {
      DecideWithin(s, url, count, a, a.headerRetryMs, done);
    } else {
      ResolveWithin(s, url, a.body, done);
      var (t, r) := ResolveFromBody(s, a.body);
      if r.Resolved? {
        DecideWithin(t, url, count, a, r.retryMs, done);
      }
    }
  }

  lemma AttemptWithin(s: State, url: nat, count: nat, a: Sent, policy: Policy)
    requires Within(s, url, Retries(s, url))
    ensures var (t, o) := Attempt(s, url, count, a, policy);
            && Within(t, url, Retries(s, url) + 1)
            && Retries(t, url) == Retries(s, url) + (if o.Retry? && o.sameUrl then 1 else 0)
  {
    SendWithin(s, url);
    AfterSendState(Send(s, url), url, count, a, policy);
    if IsRateLimit(a) {
      RateLimitWithin(Send(s, url), url, count, a, Retries(s, url) + 1);
    }
  }

  lemma NextWithin(s: State, url: nat, done: nat)
    requires Within(s, url, done)
    ensures Within(s, url + 1, 0)
  {
  }

  /** The bounds that hold of a finished run. */
  ghost predicate Bounded(s: State, count: nat) {
    && |s.sends| <= (MAX_AUTO_RETRIES + 1) * count
    && (forall u: nat :: Count(s.sends, u) <= if u < count then MAX_AUTO_RETRIES + 1 else 0)
    && (forall i, j :: 0 <= i < j < |s.sends| ==> s.sends[i] <= s.sends[j])
    && s.creditsSends <= 1
    && Slept(s.sleeps) <= MAX_AUTO_RETRIES * count * MAX_RETRY_AFTER_MS
    && (forall u: nat :: SleptAt(s.sleeps, u) <= if u < count then MAX_AUTO_RETRIES * MAX_RETRY_AFTER_MS else 0)
  }

  lemma WithinBounded(s: State, url: nat, done: nat, count: nat)
    requires Within(s, url, done) && (url < count || (url == count && done == 0 && Retries(s, url) == 0))
    ensures Bounded(s, count)
  {
  }

  lemma InitWithin(s: State, url: nat, done: nat)
    requires Within(s, url, done)
    ensures Within(InitCounter(s, url), url, done) && Retries(InitCounter(s, url), url) == Retries(s, url)
  {
  }

  /** Where the loop may go with `t` after an attempt at `url`, and what it may stop with. */
  ghost predicate TurnWithin(t: State, url: nat, count: nat, turn: Turn) {
    match turn
    case Stop(_) => Bounded(t, count)
    case Go(next, _) =>
      next <= count && Within(t, next, Retries(t, next)) && (next > url ==> Retries(t, next) == 0)
  }

  lemma AfterWithin(t: State, url: nat, count: nat, done: nat, o: AttemptOutcome, lastStatus: int)
    requires url < count && Within(t, url, done)
    requires o.Retry? && o.sameUrl ==> Retries(t, url) == done
    ensures TurnWithin(t, url, count, After(o, url, count, lastStatus))
  {
    var turn := After(o, url, count, lastStatus);
    if turn.Stop? {
      WithinBounded(t, url, done, count);
    } else if turn.url > url {
      NextWithin(t, url, done);
    }
  }

  /** One round of the loop keeps the bounds, whether it stops or goes on. */
  lemma RoundWithin(s: State, url: nat, count: nat, a: Sent, policy: Policy, lastStatus: int)
    requires url < count && Within(s, url, Retries(s, url))
    ensures var (t, o) := Attempt(InitCounter(s, url), url, count, a, policy);
            TurnWithin(t, url, count, After(o, url, count, lastStatus))
  {
    InitWithin(s, url, Retries(s, url));
    AttemptWithin(InitCounter(s, url), url, count, a, policy);
    var (t, o) := Attempt(InitCounter(s, url), url, count, a, policy);
    AfterWithin(t, url, count, Retries(s, url) + 1, o, lastStatus);
  }

  lemma {:induction false} RunBounded(up: Upstream, count: nat, policy: Policy, url: nat, k: nat,
                                      s: State, lastStatus: int)
    requires url <= count && Within(s, url, Retries(s, url)) && (url == count ==> Retries(s, url) == 0)
    ensures Bounded(RunFrom(up, count, policy, url, k, s, lastStatus).0, count)
    decreases count - url, MAX_AUTO_RETRIES - Retries(s, url)
  {
    if url == count || !up(k).transform.Envelope? {
      WithinBounded(s, url, Retries(s, url), count);
    } else {
      var s0 := InitCounter(s, url);
      var (t, o) := Attempt(s0, url, count, up(k).sent, policy);
      RoundWithin(s, url, count, up(k).sent, policy, lastStatus);
      SameUrlUsesRetry(s0, url, count, up(k).sent, policy);
      var turn := After(o, url, count, lastStatus);
      if turn.Go? {
        RunBounded(up, count, policy, turn.url, k + 1, t, turn.lastStatus);
      }
    }
  }

  /**
   * For every upstream behaviour the run ends, with at most four sends per URL in URL order, at most
   * one attempt paid with credits, and at most three minutes of sleep on each URL.
   */
  lemma RetryBounds(up: Upstream, count: nat, policy: Policy)
    ensures Bounded(ExecuteOnce(up, count, policy).0, count)
  {
    RunBounded(up, count, policy, 0, 0, FRESH, 0);
  }

  // ---------------------------------------------------------------- the bounds are reached

  /** Every answer is a 429 that asks for the longest wait the engine accepts. */
  const ALWAYS_LIMITED: Upstream :=
    (k: nat) => Answer(Envelope, Got(RATE_LIMITED, Some(MAX_RETRY_AFTER_MS), Unreadable, false, Delivered))

  /** `shouldRetry` of the base executor. */
  function BasePolicy(count: nat): Policy {
    (status: int, url: nat) => status == RATE_LIMITED && url + 1 < count
  }

  lemma LimitedAttempt(s: State, url: nat, count: nat, k: nat)
    requires url < count && Retries(s, url) <= MAX_AUTO_RETRIES
    ensures var sent := s.(sends := s.sends + [url]);
            Attempt(s, url, count, ALWAYS_LIMITED(k).sent, BasePolicy(count))
            == if Retries(s, url) < MAX_AUTO_RETRIES
               then (Sleep(sent, url, MAX_RETRY_AFTER_MS), Retry(true, None))
               else if url + 1 < count then (sent, Retry(false, Some(RATE_LIMITED)))
               else (sent, Return)
  {
  }

  /** Of `all` sends or sleeps on `u`, those that are still to come when the run is at `url`. */
  function StillDue(s: State, url: nat, count: nat, u: nat, all: nat): int {
    if u == url then all - Retries(s, url) else if url < u < count then all else 0
  }

  /** One round against the persistent 429. */
  lemma LimitedRound(count: nat, url: nat, k: nat, s: State, lastStatus: int)
    requires url < count && Retries(s, url) <= MAX_AUTO_RETRIES
    ensures var policy, sent := BasePolicy(count), Send(InitCounter(s, url), url);
            RunFrom(ALWAYS_LIMITED, count, policy, url, k, s, lastStatus)
            == if Retries(s, url) < MAX_AUTO_RETRIES
               then RunFrom(ALWAYS_LIMITED, count, policy, url, k + 1, Sleep(sent, url, MAX_RETRY_AFTER_MS), lastStatus)
               else if url + 1 < count
               then RunFrom(ALWAYS_LIMITED, count, policy, url + 1, k + 1, sent, RATE_LIMITED)
               else (sent, Returned)
  {
    LimitedAttempt(InitCounter(s, url), url, count, k);
    SameUrlUsesRetry(InitCounter(s, url), url, count, ALWAYS_LIMITED(k).sent, BasePolicy(count));
  }

  lemma DueAfterSleep(s: State, t: State, url: nat, count: nat, u: nat, all: nat)
    requires Retries(t, url) == Retries(s, url) + 1
    ensures StillDue(s, url, count, u, all) == StillDue(t, url, count, u, all) + if u == url then 1 else 0
  {
  }

  lemma DueAfterLast(s: State, t: State, url: nat, count: nat, u: nat, all: nat)
    requires Retries(t, url + 1) == 0 && url + 1 < count
    ensures StillDue(s, url, count, u, all)
            == StillDue(t, url + 1, count, u, all) + if u == url then all - Retries(s, url) else 0
  {
  }

  /** The state in which the persistent 429 leaves the engine. */
  function LimitedEnd(count: nat, url: nat, s: State): State
    requires url < count && Retries(s, url) <= MAX_AUTO_RETRIES && Unvisited(s, url)
    decreases count - url, MAX_AUTO_RETRIES - Retries(s, url)
  {
    var sent := Send(InitCounter(s, url), url);
    if Retries(s, url) < MAX_AUTO_RETRIES then LimitedEnd(count, url, Sleep(sent, url, MAX_RETRY_AFTER_MS))
    else if url + 1 < count then LimitedEnd(count, url + 1, sent)
    else sent
  }

  /** No URL after `url` has been retried. */
  predicate Unvisited(s: State, url: nat) {
    forall v | v in s.retries :: v <= url
  }

  lemma {:induction false} LimitedRun(count: nat, url: nat, k: nat, s: State, lastStatus: int)
    requires url < count && Retries(s, url) <= MAX_AUTO_RETRIES && Unvisited(s, url)
    ensures RunFrom(ALWAYS_LIMITED, count, BasePolicy(count), url, k, s, lastStatus)
            == (LimitedEnd(count, url, s), Returned)
    decreases count - url, MAX_AUTO_RETRIES - Retries(s, url)
  {
    var sent := Send(InitCounter(s, url), url);
    LimitedRound(count, url, k, s, lastStatus);
    if Retries(s, url) < MAX_AUTO_RETRIES {
      LimitedRun(count, url, k + 1, Sleep(sent, url, MAX_RETRY_AFTER_MS), lastStatus);
    } else if url + 1 < count {
      LimitedRun(count, url + 1, k + 1, sent, RATE_LIMITED);
    }
  }

  lemma {:induction false} LimitedCounts(count: nat, url: nat, s: State, u: nat)
    requires url < count && Retries(s, url) <= MAX_AUTO_RETRIES && Unvisited(s, url)
    ensures var t := LimitedEnd(count, url, s);
            && Count(t.sends, u) == Count(s.sends, u) + StillDue(s, url, count, u, MAX_AUTO_RETRIES + 1)
            && SleptAt(t.sleeps, u)
               == SleptAt(s.sleeps, u) + MAX_RETRY_AFTER_MS * StillDue(s, url, count, u, MAX_AUTO_RETRIES)
    decreases count - url, MAX_AUTO_RETRIES - Retries(s, url)
  {
    var sent := Send(InitCounter(s, url), url);
    CountLast(s.sends, url, u);
    if Retries(s, url) < MAX_AUTO_RETRIES {
      var t := Sleep(sent, url, MAX_RETRY_AFTER_MS);
      SleptLast(s.sleeps, Pause(url, MAX_RETRY_AFTER_MS), u);
      DueAfterSleep(s, t, url, count, u, MAX_AUTO_RETRIES + 1);
      DueAfterSleep(s, t, url, count, u, MAX_AUTO_RETRIES);
      LimitedCounts(count, url, t, u);
    } else if url + 1 < count {
      DueAfterLast(s, sent, url, count, u, MAX_AUTO_RETRIES + 1);
      DueAfterLast(s, sent, url, count, u, MAX_AUTO_RETRIES);
      LimitedCounts(count, url + 1, sent, u);
    }
  }

  /** A persistent 429 makes the engine use all it is allowed on every URL, and then return. */
  lemma BoundsAreReached(count: nat)
    requires count > 0
    ensures var (t, r) := ExecuteOnce(ALWAYS_LIMITED, count, BasePolicy(count));
            && r == Returned
            && forall u: nat :: u < count ==>
                 && Count(t.sends, u) == MAX_AUTO_RETRIES + 1
                 && SleptAt(t.sleeps, u) == MAX_AUTO_RETRIES * MAX_RETRY_AFTER_MS
  {
    LimitedRun(count, 0, 0, FRESH, 0);
    var (t, r) := ExecuteOnce(ALWAYS_LIMITED, count, BasePolicy(count));
    forall u: nat | u < count
      ensures Count(t.sends, u) == MAX_AUTO_RETRIES + 1
      ensures SleptAt(t.sleeps, u) == MAX_AUTO_RETRIES * MAX_RETRY_AFTER_MS
    {
      LimitedCounts(count, 0, FRESH, u);
    }
  }

  // ---------------------------------------------------------------- how a run ends

  lemma {:induction false} NeverAllFailed(up: Upstream, count: nat, url: nat, k: nat, s: State, lastStatus: int)
    requires url < count
    ensures !RunFrom(up, count, BasePolicy(count), url, k, s, lastStatus).1.AllFailed?
    decreases count - url, MAX_AUTO_RETRIES - Retries(s, url)
  {
    if up(k).transform.Envelope? {
      var s0 := InitCounter(s, url);
      var (t, o) := Attempt(s0, url, count, up(k).sent, BasePolicy(count));
      SameUrlUsesRetry(s0, url, count, up(k).sent, BasePolicy(count));
      var turn := After(o, url, count, lastStatus);
      if turn.Go? {
        NeverAllFailed(up, count, turn.url, k + 1, t, turn.lastStatus);
      }
    }
  }

  /**
   * With the base executor's `shouldRetry` the error after the loop is never thrown: on the last URL
   * every answer is handed back or rethrown.
   */
  lemma LoopNeverFallsThrough(up: Upstream, count: nat)
    requires count > 0
    ensures !ExecuteOnce(up, count, BasePolicy(count)).1.AllFailed?
  {
    NeverAllFailed(up, count, 0, 0, FRESH, 0);
  }

  /** The two upstreams give the same answers up to round `k`. */
  ghost predicate SameUpTo(up: Upstream, other: Upstream, k: nat) {
    forall j: nat :: j <= k ==> up(j) == other(j)
  }

  /** The send of round `k` is aborted. */
  predicate AbortsAt(up: Upstream, k: nat) {
    up(k).transform.Envelope? && up(k).sent == SendThrew(true)
  }

  lemma {:induction false} AbortedRun(up: Upstream, other: Upstream, count: nat, policy: Policy, k: nat,
                                      url: nat, j: nat, s: State, lastStatus: int)
    requires AbortsAt(up, k) && SameUpTo(up, other, k) && |s.sends| == j <= k
    ensures var (t, r) := RunFrom(up, count, policy, url, j, s, lastStatus);
            && |t.sends| <= k + 1
            && (|t.sends| == k + 1 ==> r == Thrown(true))
            && (t, r) == RunFrom(other, count, policy, url, j, s, lastStatus)
    decreases count - url, MAX_AUTO_RETRIES - Retries(s, url)
  {
    if url < count && up(j).transform.Envelope? && j < k {
      var s0 := InitCounter(s, url);
      var (t, o) := Attempt(s0, url, count, up(j).sent, policy);
      SameUrlUsesRetry(s0, url, count, up(j).sent, policy);
      OneSend(s0, url, count, up(j).sent, policy);
      var turn := After(o, url, count, lastStatus);
      if turn.Go? {
        AbortedRun(up, other, count, policy, k, turn.url, j + 1, t, turn.lastStatus);
      }
    }
  }

  lemma OneSend(s: State, url: nat, count: nat, a: Sent, policy: Policy)
    ensures Attempt(s, url, count, a, policy).0.sends == s.sends + [url]
  {
    AfterSendState(Send(s, url), url, count, a, policy);
  }

  /**
   * Nothing follows an abort. Whatever the upstream answers before: if the send of round `k` is aborted,
   * no run sends again after it, a run that gets there throws the abort, and state and result do not
   * depend on any later answer.
   */
  lemma AbortEnds(up: Upstream, other: Upstream, count: nat, policy: Policy, k: nat)
    requires AbortsAt(up, k) && SameUpTo(up, other, k)
    ensures var (t, r) := ExecuteOnce(up, count, policy);
            && |t.sends| <= k + 1
            && (|t.sends| == k + 1 ==> r == Thrown(true))
            && (t, r) == ExecuteOnce(other, count, policy)
  {
    AbortedRun(up, other, count, policy, k, 0, 0, FRESH, 0);
  }
}
