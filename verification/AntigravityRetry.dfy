/**
 * The retry engine of `antigravity.ts`: one request, a list of fallback URLs, up to three retries on
 * the same URL, and one attempt paid with credits. Upstream answers, classifications and the helpers
 * that live in other files are an arbitrary stream of `Answer`s, so every result holds for every
 * behaviour of them.
 */
module AntigravityRetry {
  import opened Integers
  import opened Options

  const MAX_AUTO_RETRIES: nat := 3
  const MAX_RETRY_AFTER_MS: nat := 60000
  const LONG_RETRY_THRESHOLD_MS: nat := 60000
  const TRANSIENT_RETRY_MAX_MS: nat := 15000
  const RATE_LIMITED: int := 429
  const SERVICE_UNAVAILABLE: int := 503

  // ---------------------------------------------------------------- what the outside answers

  datatype Transform = Envelope | Rejected | TransformThrew

  /** How the attempt paid with credits ends, when one is made. */
  datatype Credits = CreditsResult | CreditsNull | CreditsAborted | CreditsThrew

  /** What the error body yields: nothing, an abort, or a classification and a decision. */
  datatype Body =
    | Unreadable
    | ReadAborted
    | Classified(quotaExhausted: bool, retryAfterMs: Option<int>, creditsInjected: bool,
                 creditsAllowed: bool, credits: Credits)

  /** How building the final result ends. */
  datatype Delivery = Delivered | DeliveryThrew(aborted: bool)

  datatype Sent =
    | SendThrew(aborted: bool)
    | Got(status: int, headerRetryMs: Option<int>, body: Body, transientBody: bool, delivery: Delivery)

  datatype Answer = Answer(transform: Transform, sent: Sent)

  /** The k-th round of the loop meets the k-th answer. */
  type Upstream = nat -> Answer

  /** `shouldRetry(status, urlIndex)`. */
  type Policy = (int, nat) -> bool

  // ---------------------------------------------------------------- state and outcomes

  /** A sleep before a retry on `url`. */
  datatype Pause = Pause(url: nat, ms: int)

  /**
   * `retries` and `creditsAttempted` steer the engine. The rest is a record of what was done: the URL
   * of each send, each sleep, the number of credits attempts.
   */
  datatype State = State(retries: map<nat, nat>, creditsAttempted: bool,
                         sends: seq<nat>, sleeps: seq<Pause>, creditsSends: nat)

  const FRESH := State(map[], false, [], [], 0)

  function Retries(s: State, url: nat): nat {
    if url in s.retries then s.retries[url] else 0
  }

  datatype RateLimitOutcome =
    | ReturnNow
    | RetrySameUrl
    | RetryNextUrl(lastStatus: int)
    | Fallthrough(retryMs: Option<int>)
    | RateLimitThrew

  datatype AttemptOutcome = Return | Retry(sameUrl: bool, lastStatus: Option<int>) | Threw(aborted: bool)

  datatype Result = Returned | Thrown(aborted: bool) | AllFailed(lastStatus: int)

  datatype Resolution = ResolvedReturn | Resolved(retryMs: Option<int>) | ResolutionThrew

  // ---------------------------------------------------------------- the engine, step by step

  function CreditsEligible(s: State, b: Body): bool {
    b.Classified? && b.quotaExhausted && !b.creditsInjected && !s.creditsAttempted && b.creditsAllowed
  }

  function ResolveFromBody(s: State, b: Body): (State, Resolution) {
    match b
    case Unreadable => (s, Resolved(None))
    case ReadAborted => (s, ResolutionThrew)
    case Classified(_, retryAfterMs, _, _, credits) =>
      if !CreditsEligible(s, b) then (s, Resolved(retryAfterMs))
      else
        var t := s.(creditsAttempted := true, creditsSends := s.creditsSends + 1);
        match credits
        case CreditsResult => (t, ResolvedReturn)
        case CreditsNull => (t, Resolved(retryAfterMs))
        case CreditsAborted => (t, ResolutionThrew)
        case CreditsThrew => (t, Resolved(None))
  }

  /** JavaScript truth of a `number | null`. */
  predicate Truthy(ms: Option<int>) {
    ms.Some? && ms.value != 0
  }

  /** 2 s, 4 s, 8 s, capped per status. */
  function Backoff(retry: nat, status: int): int {
    Min(1000 * Power2(retry), if status == RATE_LIMITED then MAX_RETRY_AFTER_MS else TRANSIENT_RETRY_MAX_MS)
  }

  function Power2(n: nat): nat {
    if n == 0 then 1 else 2 * Power2(n - 1)
  }

  function Sleep(s: State, url: nat, ms: int): State {
    s.(retries := s.retries[url := Retries(s, url) + 1], sleeps := s.sleeps + [Pause(url, ms)])
  }

  predicate AutoRetries(a: Sent)
    requires a.Got?
  {
    a.status == RATE_LIMITED || (a.status in {500, 502, 503, 504} && a.transientBody)
  }

  /** What to do once the retry time is known. */
  function Decide(s: State, url: nat, count: nat, a: Sent, retryMs: Option<int>): (State, RateLimitOutcome)
    requires a.Got?
  {
    if Truthy(retryMs) && retryMs.value <= LONG_RETRY_THRESHOLD_MS && Retries(s, url) < MAX_AUTO_RETRIES
    then (Sleep(s, url, Min(retryMs.value, MAX_RETRY_AFTER_MS)), RetrySameUrl)
    else if !Truthy(retryMs) && Retries(s, url) < MAX_AUTO_RETRIES && AutoRetries(a)
    then (Sleep(s, url, Backoff(Retries(s, url) + 1, a.status)), RetrySameUrl)
    else if url + 1 < count then (s, RetryNextUrl(a.status))
    else (s, Fallthrough(retryMs))
  }

  function RateLimit(s: State, url: nat, count: nat, a: Sent): (State, RateLimitOutcome)
    requires a.Got?
  {
    if Truthy(a.headerRetryMs) then Decide(s, url, count, a, a.headerRetryMs)
    else
      var (t, r) := ResolveFromBody(s, a.body);
      match r
      case ResolvedReturn => (t, ReturnNow)
      case ResolutionThrew => (t, RateLimitThrew)
      case Resolved(retryMs) => Decide(t, url, count, a, retryMs)
  }

  function Deliver(a: Sent): AttemptOutcome
    requires a.Got?
  {
    if a.delivery.DeliveryThrew? then Threw(a.delivery.aborted) else Return
  }

  function AfterRateLimit(s: State, url: nat, a: Sent, policy: Policy): (State, AttemptOutcome)
    requires a.Got?
  {
    if policy(a.status, url) then (s, Retry(false, Some(a.status))) else (s, Deliver(a))
  }

  predicate IsRateLimit(a: Sent) {
    a.Got? && (a.status == RATE_LIMITED || a.status == SERVICE_UNAVAILABLE)
  }

  function Send(s: State, url: nat): State {
    s.(sends := s.sends + [url])
  }

  function AfterSend(s: State, url: nat, count: nat, a: Sent, policy: Policy): (State, AttemptOutcome) {
    if a.SendThrew? then (s, Threw(a.aborted))
    else if !IsRateLimit(a) then AfterRateLimit(s, url, a, policy)
    else
      var (t, r) := RateLimit(s, url, count, a);
      match r
      case ReturnNow => (t, Return)
      case RetrySameUrl => (t, Retry(true, None))
      case RetryNextUrl(lastStatus) => (t, Retry(false, Some(lastStatus)))
      case RateLimitThrew => (t, Threw(true))
      case Fallthrough(_) => AfterRateLimit(t, url, a, policy)
  }

  function Attempt(s: State, url: nat, count: nat, a: Sent, policy: Policy): (State, AttemptOutcome) {
    AfterSend(Send(s, url), url, count, a, policy)
  }

  function InitCounter(s: State, url: nat): State {
    if Retries(s, url) == 0 then s.(retries := s.retries[url := 0]) else s
  }

  /** What the loop does after an attempt: stop, or go on at a URL. */
  datatype Turn = Stop(result: Result) | Go(url: nat, lastStatus: int)

  function After(o: AttemptOutcome, url: nat, count: nat, lastStatus: int): Turn {
    match o
    case Return => Stop(Returned)
    case Retry(sameUrl, status) => Go(if sameUrl then url else url + 1, status.GetOr(lastStatus))
    case Threw(aborted) =>
      if aborted || url + 1 >= count then Stop(Thrown(aborted)) else Go(url + 1, lastStatus)
  }

  /** What a decision does to the counters. */
  lemma DecideCounters(s: State, url: nat, count: nat, a: Sent, retryMs: Option<int>)
    requires a.Got?
    ensures var (t, o) := Decide(s, url, count, a, retryMs);
            && (o.RetrySameUrl? ==>
                  Retries(s, url) < MAX_AUTO_RETRIES && t.retries == s.retries[url := Retries(s, url) + 1])
            && (!o.RetrySameUrl? ==> t == s)
  {
  }

  lemma RateLimitCounters(s: State, url: nat, count: nat, a: Sent)
    requires a.Got?
    ensures var (t, o) := RateLimit(s, url, count, a);
            && (o.RetrySameUrl? ==>
                  Retries(s, url) < MAX_AUTO_RETRIES && t.retries == s.retries[url := Retries(s, url) + 1])
            && (!o.RetrySameUrl? ==> t.retries == s.retries)
  {
    if Truthy(a.headerRetryMs) {
      DecideCounters(s, url, count, a, a.headerRetryMs);
    } else {
      var (t, r) := ResolveFromBody(s, a.body);
      assert t.retries == s.retries;
      if r.Resolved? {
        DecideCounters(t, url, count, a, r.retryMs);
      }
    }
  }

  lemma AfterSendState(s: State, url: nat, count: nat, a: Sent, policy: Policy)
    ensures var (t, o) := AfterSend(s, url, count, a, policy);
            && t == (if IsRateLimit(a) then RateLimit(s, url, count, a).0 else s)
            && (o.Retry? && o.sameUrl <==> IsRateLimit(a) && RateLimit(s, url, count, a).1.RetrySameUrl?)
  {
  }

  /**
   * A retry on the same URL uses up one of the three, and no other outcome touches a counter: this is what
   * makes the loop end.
   */
  lemma SameUrlUsesRetry(s: State, url: nat, count: nat, a: Sent, policy: Policy)
    ensures var (t, o) := Attempt(s, url, count, a, policy);
            && (o.Retry? && o.sameUrl ==>
                  Retries(s, url) < MAX_AUTO_RETRIES && t.retries == s.retries[url := Retries(s, url) + 1])
            && (!(o.Retry? && o.sameUrl) ==> t.retries == s.retries)
  {
    AfterSendState(Send(s, url), url, count, a, policy);
    if IsRateLimit(a) {
      RateLimitCounters(Send(s, url), url, count, a);
    }
  }

  /** The loop from round `k` on, at URL `url`. */
  function RunFrom(up: Upstream, count: nat, policy: Policy, url: nat, k: nat, s: State, lastStatus: int)
    : (State, Result)
    decreases count - url, MAX_AUTO_RETRIES - Retries(s, url)
  {
    if url >= count then (s, AllFailed(lastStatus))
    else
      match up(k).transform
      case Rejected => (s, Returned)
      case TransformThrew => (s, Thrown(false))
      case Envelope =>
        var s0 := InitCounter(s, url);
        var (t, o) := Attempt(s0, url, count, up(k).sent, policy);
        SameUrlUsesRetry(s0, url, count, up(k).sent, policy);
        match After(o, url, count, lastStatus)
        case Stop(result) => (t, result)
        case Go(next, status) => RunFrom(up, count, policy, next, k + 1, t, status)
  }

  function ExecuteOnce(up: Upstream, count: nat, policy: Policy): (State, Result) {
    RunFrom(up, count, policy, 0, 0, FRESH, 0)
  }
}
