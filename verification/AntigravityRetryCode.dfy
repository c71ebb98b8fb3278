/**
 * The retry engine as the source runs it: a loop that takes back its own index for a same-URL retry,
 * and methods that update the shared per-URL counters and the shared credits flag. Each method is
 * proved against the engine's step functions in AntigravityRetry.
 */
module AntigravityRetryCode {
  import opened Integers
  import opened Options
  import opened AntigravityRetry

  /** The run from one round on is that round, then the run from where it leads. */
  lemma RunUnfolds(up: Upstream, count: nat, policy: Policy, url: nat, k: nat, s: State, lastStatus: int)
    requires url < count && up(k).transform.Envelope?
    ensures var s0 := InitCounter(s, url);
            var (t, o) := Attempt(s0, url, count, up(k).sent, policy);
            && RunFrom(up, count, policy, url, k, s, lastStatus)
               == (match After(o, url, count, lastStatus)
                   case Stop(result) => (t, result)
                   case Go(next, status) => RunFrom(up, count, policy, next, k + 1, t, status))
            && (o.Retry? && o.sameUrl ==> MAX_AUTO_RETRIES > Retries(s, url) == Retries(t, url) - 1)
  {
    SameUrlUsesRetry(InitCounter(s, url), url, count, up(k).sent, policy);
  }

  class RetryRun {
    var retryAttemptsByUrl: map<nat, nat>
    var creditsAttempted: bool
    // The record of what was done.
    var sends: seq<nat>
    var sleeps: seq<Pause>
    var creditsSends: nat

    constructor ()
      ensures View() == FRESH
    {
      retryAttemptsByUrl, creditsAttempted := map[], false;
      sends, sleeps, creditsSends := [], [], 0;
    }

    function View(): State
      reads this
    {
      State(retryAttemptsByUrl, creditsAttempted, sends, sleeps, creditsSends)
    }

    /** `tryResolveRetryFromErrorBody`. */
    method TryResolveRetryFromErrorBody(b: Body) returns (r: Resolution)
      modifies this
      ensures (View(), r) == ResolveFromBody(old(View()), b)
    {
      match b
      case Unreadable => r := Resolved(None);
      case ReadAborted => r := ResolutionThrew;
      case Classified(quotaExhausted, retryAfterMs, creditsInjected, creditsAllowed, credits) =>
        var creditsRetryEligible := quotaExhausted && !creditsInjected && !creditsAttempted && creditsAllowed;
        r := Resolved(retryAfterMs);
        if creditsRetryEligible {
          creditsAttempted := true;
          creditsSends := creditsSends + 1;
          match credits {
            case CreditsResult => r := ResolvedReturn;
            case CreditsNull =>
            case CreditsAborted => r := ResolutionThrew;
            case CreditsThrew => r := Resolved(None);
          }
        }
    }

    method CountAndSleep(url: nat, ms: int)
      requires url in retryAttemptsByUrl
      modifies this
      ensures View() == Sleep(old(View()), url, ms)
    {
      retryAttemptsByUrl := retryAttemptsByUrl[url := retryAttemptsByUrl[url] + 1];
      sleeps := sleeps + [Pause(url, ms)];
    }

    method DecideRetry(url: nat, fallbackCount: nat, a: Sent, retryMs: Option<int>) returns (o: RateLimitOutcome)
      requires a.Got? && url in retryAttemptsByUrl
      modifies this
      ensures (View(), o) == Decide(old(View()), url, fallbackCount, a, retryMs)
    {
      var known := retryMs.Some? && retryMs.value != 0;
      if known && retryMs.value <= LONG_RETRY_THRESHOLD_MS && retryAttemptsByUrl[url] < MAX_AUTO_RETRIES {
        CountAndSleep(url, Min(retryMs.value, MAX_RETRY_AFTER_MS));
        return RetrySameUrl;
      }
      if !known && retryAttemptsByUrl[url] < MAX_AUTO_RETRIES && AutoRetries(a) {
        CountAndSleep(url, Backoff(retryAttemptsByUrl[url] + 1, a.status));
        return RetrySameUrl;
      }
      if url + 1 < fallbackCount {
        return RetryNextUrl(a.status);
      }
      return Fallthrough(retryMs);
    }

    /** `handleAntigravityRateLimit`. */
    method HandleRateLimit(url: nat, fallbackCount: nat, a: Sent) returns (o: RateLimitOutcome)
      requires a.Got? && url in retryAttemptsByUrl
      modifies this
      ensures (View(), o) == RateLimit(old(View()), url, fallbackCount, a)
    {
      var retryMs := a.headerRetryMs;
      if !Truthy(retryMs) {
        var resolved := TryResolveRetryFromErrorBody(a.body);
        match resolved {
          case ResolvedReturn => return ReturnNow;
          case ResolutionThrew => return RateLimitThrew;
          case Resolved(ms) => retryMs := ms;
        }
      }
      o := DecideRetry(url, fallbackCount, a, retryMs);
    }

    /** `runAntigravityAttempt`. */
    method RunAttempt(url: nat, fallbackCount: nat, a: Sent, policy: Policy) returns (o: AttemptOutcome)
      requires url in retryAttemptsByUrl
      modifies this
      ensures (View(), o) == Attempt(old(View()), url, fallbackCount, a, policy)
    {
      sends := sends + [url];
      if a.SendThrew? {
        return Threw(a.aborted);
      }
      if a.status == RATE_LIMITED || a.status == SERVICE_UNAVAILABLE {
        var r := HandleRateLimit(url, fallbackCount, a);
        match r {
          case ReturnNow => return Return;
          case RetrySameUrl => return Retry(true, None);
          case RetryNextUrl(lastStatus) => return Retry(false, Some(lastStatus));
          case RateLimitThrew => return Threw(true);
          case Fallthrough(_) =>
        }
      }
      if policy(a.status, url) {
        return Retry(false, Some(a.status));
      }
      return Deliver(a);
    }

    method StartCounter(url: nat)
      modifies this
      ensures View() == InitCounter(old(View()), url) && url in retryAttemptsByUrl
    {
      if url !in retryAttemptsByUrl || retryAttemptsByUrl[url] == 0 {
        retryAttemptsByUrl := retryAttemptsByUrl[url := 0];
      }
    }

    /** One round: initialise the counter of the URL, then attempt it. */
    method Round(url: nat, fallbackCount: nat, a: Sent, policy: Policy) returns (o: AttemptOutcome)
      modifies this
      ensures (View(), o) == Attempt(InitCounter(old(View()), url), url, fallbackCount, a, policy)
    {
      StartCounter(url);
      o := RunAttempt(url, fallbackCount, a, policy);
    }

    /** What the loop body does with an outcome: stop, or leave the index for the `urlIndex++` to come. */
    static method React(outcome: AttemptOutcome, url: nat, fallbackCount: nat, lastStatus: int)
      returns (stop: Option<Result>, urlIndex: int, status: int)
      ensures match After(outcome, url, fallbackCount, lastStatus)
              case Stop(result) => stop == Some(result)
              case Go(next, s) => stop == None && urlIndex + 1 == next && status == s
    {
      stop, urlIndex, status := None, url, lastStatus;
      match outcome {
        case Return => stop := Some(Returned);
        case Retry(sameUrl, seen) =>
          if seen.Some? {
            status := seen.value;
          }
          if sameUrl {
            urlIndex := urlIndex - 1;
          }
        case Threw(aborted) =>
          if aborted || url + 1 >= fallbackCount {
            stop := Some(Thrown(aborted));
          }
      }
    }

    /**
     * One round. Either the whole run ends with `stop`, or it goes on at `urlIndex + 1`; and a same-URL retry
     * has used up one of the three.
     */
    method LoopBody(up: Upstream, fallbackCount: nat, policy: Policy, url: nat, round: nat, seen: int,
                    ghost whole: (State, Result))
      returns (stop: Option<Result>, urlIndex: int, lastStatus: int)
      requires url < fallbackCount && Leads(up, fallbackCount, policy, url, round, View(), seen, whole)
      modifies this
      ensures stop.Some? ==> (View(), stop.value) == whole
      ensures stop.None? ==> urlIndex == url || urlIndex == url - 1
      ensures stop.None? ==> Leads(up, fallbackCount, policy, urlIndex + 1, round + 1, View(), lastStatus, whole)
      ensures stop.None? && urlIndex == url - 1
              ==> MAX_AUTO_RETRIES > Retries(old(View()), url) == Retries(View(), url) - 1
    {
      if up(round).transform.Rejected? {
        return Some(Returned), url, seen;
      }
      if up(round).transform.TransformThrew? {
        return Some(Thrown(false)), url, seen;
      }
      RunUnfolds(up, fallbackCount, policy, url, round, View(), seen);
      var outcome := Round(url, fallbackCount, up(round).sent, policy);
      stop, urlIndex, lastStatus := React(outcome, url, fallbackCount, seen);
    }

    /**
     * The loop of `executeOnce`: it adds one to its index after every round, and a same-URL retry first takes
     * one off. It ends because each same-URL retry uses up one of the three for that URL.
     */
    method Loop(up: Upstream, fallbackCount: nat, policy: Policy, ghost whole: (State, Result))
      returns (result: Result)
      requires Leads(up, fallbackCount, policy, 0, 0, View(), 0, whole)
      modifies this
      ensures (View(), result) == whole
    {
      var lastStatus := 0;
      var urlIndex: int := 0;
      var round: nat := 0;
      while urlIndex < fallbackCount
        invariant urlIndex >= 0
        invariant Leads(up, fallbackCount, policy, urlIndex, round, View(), lastStatus, whole)
        decreases fallbackCount - urlIndex, MAX_AUTO_RETRIES - Retries(View(), urlIndex)
      {
        var stop;
        stop, urlIndex, lastStatus := LoopBody(up, fallbackCount, policy, urlIndex, round, lastStatus, whole);
        if stop.Some? {
          return stop.value;
        }
        urlIndex := urlIndex + 1;
        round := round + 1;
      }
      LeadsToEnd(up, fallbackCount, policy, urlIndex, round, View(), lastStatus, whole);
      result := AllFailed(lastStatus);
    }

    /** `executeOnce` on a fresh engine does what the recursive specification says. */
    method ExecuteOnce(up: Upstream, fallbackCount: nat, policy: Policy) returns (result: Result)
      requires View() == FRESH
      modifies this
      ensures (View(), result) == AntigravityRetry.ExecuteOnce(up, fallbackCount, policy)
    {
      result := Loop(up, fallbackCount, policy, AntigravityRetry.ExecuteOnce(up, fallbackCount, policy));
    }
  }

  /** The run that is at `url` in state `s` leads to the result `whole`. */
  ghost predicate Leads(up: Upstream, count: nat, policy: Policy, url: int, k: nat, s: State, lastStatus: int,
                        whole: (State, Result))
  {
    url >= 0 && RunFrom(up, count, policy, url, k, s, lastStatus) == whole
  }

  lemma LeadsToEnd(up: Upstream, count: nat, policy: Policy, url: int, k: nat, s: State, lastStatus: int,
                   whole: (State, Result))
    requires Leads(up, count, policy, url, k, s, lastStatus, whole) && url >= count
    ensures whole == (s, AllFailed(lastStatus))
  {
  }
}
