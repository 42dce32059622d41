/** Retry and failover decisions (internal/retry/retry.go). */
module Retry {
  import opened Wrappers

  /** Nanoseconds. */
  type Duration = int64

  const MILLISECOND: Duration := 1_000_000
  const DEFAULT_BASE_DELAY: Duration := 100 * MILLISECOND

  datatype ErrorClass =
    | InvalidRequest | Authentication | Payment | ModelNotFound | RateLimit | QuotaExhausted
    | Timeout | Transport | Server | MalformedResponse | Cancelled | Unknown

  datatype DeliveryState = NothingSent | HeadersSent | BodyStarted | StreamCompleted

  datatype Action = RetrySameRoute | FailOver | TerminalError | PartialStream | ClientCancelled

  datatype HealthEffect = NoHealthChange | BackoffRoute | BackoffCredential | MarkRouteStale | BlockCredential

  datatype Policy = Policy(maximumAttempts: int, baseDelay: Duration, maximumDelay: Duration,
                           maximumRetryAfter: Duration)

  function DefaultPolicy(): Policy {
    Policy(3, 100 * MILLISECOND, 2000 * MILLISECOND, 5000 * MILLISECOND)
  }

  /** `now` and `deadline` are instants in nanoseconds; no deadline is the zero time. */
  datatype Input = Input(
    policy: Policy, attemptNumber: int, now: int, deadline: Option<int>,
    class_: ErrorClass, retryAfter: Option<Duration>, delivery: DeliveryState,
    sameRouteAvailable: bool, fallbacksRemaining: int,
    planMode: bool, sameRouteRetriesRemaining: int, planEntriesRemaining: int, totalAttemptsRemaining: int)

  datatype Decision = Decision(action: Action, delay: Duration, health: HealthEffect)

  function NormalizePolicy(p: Policy): (r: Policy)
    ensures 1 <= r.maximumAttempts && 0 < r.baseDelay <= r.maximumDelay && 0 < r.maximumRetryAfter
    ensures 1 <= p.maximumAttempts && 0 < p.baseDelay <= p.maximumDelay && 0 < p.maximumRetryAfter ==> r == p
  {
    var attempts := if p.maximumAttempts < 1 then 1 else p.maximumAttempts;
    var base := if p.baseDelay <= 0 then DEFAULT_BASE_DELAY else p.baseDelay;
    var most := if p.maximumDelay < base then base else p.maximumDelay;
    var after := if p.maximumRetryAfter <= 0 then most else p.maximumRetryAfter;
    Policy(attempts, base, most, after)
  }

  function Pow2(n: nat): nat {
    if n == 0 then 1 else 2 * Pow2(n - 1)
  }

  /** Exponential backoff in unbounded integers: Base * 2^(attempt-1), capped at Maximum. */
  function ExponentialDelay(p: Policy, attempt: int): (d: Duration)
    requires 0 < p.baseDelay <= p.maximumDelay
    ensures 0 < d <= p.maximumDelay
  {
    var ideal := p.baseDelay as int * Pow2(if attempt < 1 then 0 else attempt - 1);
    DelayIsPositive(p.baseDelay as int, if attempt < 1 then 0 else attempt - 1);
    if ideal <= p.maximumDelay as int then ideal as Duration else p.maximumDelay
  }

  lemma {:induction false} DelayIsPositive(base: int, n: nat)
    requires 0 < base
    ensures base <= base * Pow2(n)
  {
    if n > 0 {
      DelayIsPositive(base, n - 1);
      assert base * Pow2(n) == 2 * (base * Pow2(n - 1));
    }
  }

  lemma {:induction false} DelayGrows(base: int, m: nat, n: nat)
    requires 0 < base && m <= n
    ensures base * Pow2(m) <= base * Pow2(n)
    decreases n
  {
    if m < n {
      DelayGrows(base, m, n - 1);
      DelayIsPositive(base, n - 1);
      assert base * Pow2(n) == 2 * (base * Pow2(n - 1));
    }
  }

  /** The doubling loop computes the capped exponential, and no step leaves 64 bits. */
  method Backoff(p: Policy, attempt: int) returns (delay: Duration)
    requires 0 < p.baseDelay <= p.maximumDelay
    ensures delay == ExponentialDelay(p, attempt)
  {
    delay := p.baseDelay;
    var i := 1;
    while i < attempt && delay < p.maximumDelay
      invariant 1 <= i && (i <= attempt || i == 1)
      invariant 0 < delay <= p.maximumDelay
      invariant delay as int == p.baseDelay as int * Pow2(i - 1)
      decreases attempt - i
    {
      assert p.baseDelay as int * Pow2(i) == 2 * (p.baseDelay as int * Pow2(i - 1));
      if delay > p.maximumDelay / 2 {
        DelayGrows(p.baseDelay as int, i, attempt - 1);
        return p.maximumDelay;
      }
      delay := delay * 2;
      i := i + 1;
    }
    if i < attempt { DelayGrows(p.baseDelay as int, i - 1, attempt - 1); }
    if delay > p.maximumDelay {
      return p.maximumDelay;
    }
  }

  predicate Retryable(c: ErrorClass) {
    c in {RateLimit, Timeout, Transport, Server, Authentication, Payment, ModelNotFound, MalformedResponse}
  }

  /** Classes for which another try on the same route makes no sense. */
  predicate NeedsAnotherRoute(c: ErrorClass) {
    c in {Authentication, Payment, ModelNotFound, MalformedResponse}
  }

  /** time.Time.Sub saturates at the ends of the Duration range. */
  function Sub(a: int, b: int): Duration {
    if a - b < -0x8000_0000_0000_0000 then -0x8000_0000_0000_0000
    else if a - b > MAX_INT64 then 0x7fff_ffff_ffff_ffff
    else (a - b) as Duration
  }

  function Terminal(h: HealthEffect): Decision { Decision(TerminalError, 0, h) }

  function HealthFor(c: ErrorClass): HealthEffect {
    if c == Authentication || c == Payment then BackoffCredential
    else if c == ModelNotFound then MarkRouteStale
    else BackoffRoute
  }

  function Decide(input: Input): Decision {
    var c := input.class_;
    if c == Cancelled then Decision(ClientCancelled, 0, NoHealthChange)
    else if input.delivery != NothingSent then Decision(PartialStream, 0, NoHealthChange)
    else if c == InvalidRequest then Terminal(NoHealthChange)
    else if c == QuotaExhausted then
      if (input.planMode && input.planEntriesRemaining > 0) || (!input.planMode && input.fallbacksRemaining > 0)
      then Decision(FailOver, 0, BlockCredential)
      else Terminal(BlockCredential)
    else
      var policy := NormalizePolicy(input.policy);
      if input.planMode && input.totalAttemptsRemaining <= 1 then Terminal(NoHealthChange)
      else if input.attemptNumber < 1 || input.attemptNumber >= policy.maximumAttempts then Terminal(NoHealthChange)
      else if input.deadline.Some? && input.now >= input.deadline.value then Terminal(NoHealthChange)
      else if !Retryable(c) then Terminal(NoHealthChange)
      else
        var health := HealthFor(c);
        var move := RouteChange(input);
        if move.None? then Terminal(health)
        else
          var delay := RetryDelay(input);
          if input.deadline.Some? && delay >= Sub(input.deadline.value, input.now) then Terminal(health)
          else Decision(move.value, delay, health)
  }

  /** The provider's own delay if the policy admits it, else the exponential one. */
  function RetryDelay(input: Input): (d: Duration)
    ensures 0 <= d
  {
    var policy := NormalizePolicy(input.policy);
    if input.retryAfter.Some? && 0 <= input.retryAfter.value <= policy.maximumRetryAfter
    then input.retryAfter.value else ExponentialDelay(policy, input.attemptNumber)
  }

  /** Which route a retryable error goes to next, if any. */
  function RouteChange(input: Input): Option<Action> {
    if input.planMode then
      if NeedsAnotherRoute(input.class_) || input.sameRouteRetriesRemaining <= 0
      then (if input.planEntriesRemaining > 0 then Some(FailOver) else None)
      else Some(RetrySameRoute)
    else if !input.sameRouteAvailable || input.attemptNumber > 1 || NeedsAnotherRoute(input.class_)
    then (if input.fallbacksRemaining > 0 then Some(FailOver)
          else if !input.sameRouteAvailable then None else Some(RetrySameRoute))
    else Some(RetrySameRoute)
  }

  /** No decision moves to another upstream call once the client has seen a byte. */
  lemma NoRetryAfterDelivery(input: Input)
    ensures input.delivery != NothingSent ==> Decide(input).action in {PartialStream, ClientCancelled}
    ensures Decide(input).action == PartialStream <==> input.delivery != NothingSent && input.class_ != Cancelled
  {}

  /** Another attempt may be made at all: nothing was sent, attempts are left, and the wait ends before the deadline. */
  ghost predicate MayGoOn(input: Input) {
    && input.delivery == NothingSent && Retryable(input.class_)
    && 1 <= input.attemptNumber < NormalizePolicy(input.policy).maximumAttempts
    && (input.planMode ==> input.totalAttemptsRemaining > 1)
    && (input.deadline.Some? ==>
          input.now + RetryDelay(input) as int < input.deadline.value && RetryDelay(input) as int < MAX_INT64)
  }

  /** The same route is tried again exactly when all of these allow it. */
  lemma SameRouteRetryExactly(input: Input)
    ensures Decide(input).action == RetrySameRoute <==>
            && MayGoOn(input)
            && (if input.planMode then !NeedsAnotherRoute(input.class_) && input.sameRouteRetriesRemaining > 0
                else input.sameRouteAvailable
                     && (input.fallbacksRemaining <= 0
                         || (input.attemptNumber <= 1 && !NeedsAnotherRoute(input.class_))))
  {}

  /** The next route is tried exactly on these errors, and only if there is one. */
  lemma FailOverExactly(input: Input)
    ensures Decide(input).action == FailOver <==>
            && input.delivery == NothingSent
            && (if input.planMode then input.planEntriesRemaining > 0 else input.fallbacksRemaining > 0)
            && (input.class_ == QuotaExhausted ||
                (MayGoOn(input) &&
                 (NeedsAnotherRoute(input.class_) || if input.planMode then input.sameRouteRetriesRemaining <= 0
                                                     else !input.sameRouteAvailable || input.attemptNumber > 1)))
  {}

  /** Every wait is bounded by the policy, and by the deadline when there is one. */
  lemma DelayIsBounded(input: Input)
    ensures var d := Decide(input).delay;
            var p := NormalizePolicy(input.policy);
            && 0 <= d && (d <= p.maximumDelay || d <= p.maximumRetryAfter)
            && (input.deadline.Some? && d > 0 ==> input.now + d as int < input.deadline.value)
  {}
}
