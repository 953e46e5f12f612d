/** The retry loop of zoeken/zoeken-network/src/lib.rs and its backoff. Times are nanoseconds; what
    the network answers, what the clock reads and what the jitter draws are parameters indexed by
    the attempt. */
module RequestRetry {
  import opened Wrappers

  const MILLISECOND: nat := 1_000_000
  const RETRY_BACKOFF_BASE: nat := 100 * MILLISECOND
  const RETRY_BACKOFF_MAX: nat := 2000 * MILLISECOND
  const U32_MAX: nat := 0xFFFF_FFFF

  function Pow2(n: nat): nat { if n == 0 then 1 else 2 * Pow2(n - 1) }

  /** The ceiling of the pause after an attempt; the shift is capped at 16. */
  function BackoffDuration(attempt: nat): nat {
    var shift := Min(if attempt == 0 then 0 else attempt - 1, 16);
    Min(RETRY_BACKOFF_BASE * Pow2(shift), RETRY_BACKOFF_MAX)
  }

  /** From the fifth doubling on the maximum is reached. */
  lemma {:induction false} Pow2FromFive(n: nat)
    ensures Pow2(n) >= 1 && (n >= 5 ==> Pow2(n) >= 32)
    decreases n
  {
    if n > 0 { Pow2FromFive(n - 1); }
    if n == 5 { assert Pow2(n) == 2 * Pow2(n - 1) == 4 * Pow2(n - 2) == 8 * Pow2(n - 3); }
  }

  lemma Capped(attempt: nat, shift: nat)
    requires attempt >= 1 && shift == Min(attempt - 1, 16)
    ensures Min(RETRY_BACKOFF_BASE * Pow2(shift), RETRY_BACKOFF_MAX)
            == Min(RETRY_BACKOFF_BASE * Pow2(attempt - 1), RETRY_BACKOFF_MAX)
  {
    Pow2FromFive(shift);
    Pow2FromFive(attempt - 1);
  }

  /** The cap on the shift never shows: the ceiling is the capped power of two, */
  lemma BackoffIsPower(attempt: nat)
    requires attempt >= 1
    ensures BackoffDuration(attempt) == Min(RETRY_BACKOFF_BASE * Pow2(attempt - 1), RETRY_BACKOFF_MAX)
  {
    Capped(attempt, Min(attempt - 1, 16));
  }

  lemma DoubleCapped(p: nat)
    requires p >= 1
    ensures Min(RETRY_BACKOFF_BASE * (2 * p), RETRY_BACKOFF_MAX)
            == Min(2 * Min(RETRY_BACKOFF_BASE * p, RETRY_BACKOFF_MAX), RETRY_BACKOFF_MAX)
    ensures MILLISECOND <= Min(RETRY_BACKOFF_BASE * p, RETRY_BACKOFF_MAX)
  {
  }

  /** so it doubles with every attempt until it reaches the maximum. */
  lemma BackoffDoubles(attempt: nat, ceiling: nat, next: nat)
    requires attempt >= 1 && ceiling == BackoffDuration(attempt) && next == BackoffDuration(attempt + 1)
    ensures MILLISECOND <= ceiling <= RETRY_BACKOFF_MAX && next == Min(2 * ceiling, RETRY_BACKOFF_MAX)
  {
    BackoffIsPower(attempt);
    BackoffIsPower(attempt + 1);
    Pow2FromFive(attempt - 1);
    DoubleCapped(Pow2(attempt - 1));
  }

  /** It starts with a tenth of a second and reaches its maximum, two seconds, at the sixth attempt. */
  lemma BackoffRange(attempt: nat)
    ensures attempt <= 1 ==> BackoffDuration(attempt) == 100_000_000
    ensures attempt >= 6 ==> BackoffDuration(attempt) == 2_000_000_000
  {
    if attempt >= 6 {
      BackoffIsPower(attempt);
      Pow2FromFive(attempt - 1);
    }
  }

  datatype Outcome = Answer(status: nat) | TransportError

  datatype Reply =
    | Raw(status: nat)        // handed through as it is
    | Mapped(status: nat)     // through the status mapping
    | Failed                  // the transport error of the last attempt

  datatype World = World(outcome: nat -> Outcome, clock: nat -> nat, draw: (nat, nat) -> nat)

  datatype Config = Config(retries: nat, budget: nat, raise: bool, retryOn: set<nat>)

  ghost predicate Sane(w: World, c: Config) {
    c.retries <= U32_MAX && forall attempt: nat, millis: nat :: w.draw(attempt, millis) <= millis
  }

  function MaxAttempts(c: Config): nat { Min(c.retries + 1, U32_MAX) }

  function Deadline(w: World, c: Config): nat { w.clock(0) + c.budget }

  /** An outcome worth another attempt. */
  predicate Retryable(c: Config, o: Outcome) {
    o.TransportError? || (c.raise && o.status != 403 && o.status != 429 && o.status in c.retryOn)
  }

  function ReplyTo(c: Config, o: Outcome): Reply {
    if o.TransportError? then Failed else if c.raise then Mapped(o.status) else Raw(o.status)
  }

  /** The attempt that ends the request: the first one that is not worth repeating, or has no time
      or no attempt left after it. */
  ghost predicate IsLast(w: World, c: Config, n: nat) {
    && 1 <= n <= MaxAttempts(c)
    && (forall k :: 1 <= k < n ==> Retryable(c, w.outcome(k)) && w.clock(k) < Deadline(w, c))
    && (n == MaxAttempts(c) || !Retryable(c, w.outcome(n)) || w.clock(n) >= Deadline(w, c))
  }

  /** What that attempt means for the outcomes: every one before it was a transport error, or an
      answer to be raised whose status is configured for a retry and is neither 403 nor 429; and the
      last one is not such an outcome, or no attempt or no time was left. */
  lemma LastMeans(w: World, c: Config, n: nat)
    requires IsLast(w, c, n)
    ensures forall k :: 1 <= k < n && w.outcome(k).Answer? ==>
                          c.raise && w.outcome(k).status in c.retryOn - {403, 429}
    ensures w.outcome(n).TransportError? || (c.raise && w.outcome(n).status in c.retryOn - {403, 429}) ==>
              n == Min(c.retries + 1, U32_MAX) || w.clock(n) >= w.clock(0) + c.budget
    ensures 1 <= n <= c.retries + 1 && forall k :: 1 <= k < n ==> w.clock(k) < w.clock(0) + c.budget
  {
    assert forall k :: 1 <= k < n ==> Retryable(c, w.outcome(k));
  }

  /** What the caller gets: answers that are to be raised go through the status mapping, others are
      handed through as they are. */
  lemma ReplyMeans(c: Config, o: Outcome)
    ensures o.TransportError? ==> ReplyTo(c, o) == Failed
    ensures o.Answer? ==> ReplyTo(c, o) == if c.raise then Mapped(o.status) else Raw(o.status)
  {
  }

  /** That attempt is unique. */
  lemma LastIsUnique(w: World, c: Config, m: nat, n: nat)
    requires IsLast(w, c, m) && IsLast(w, c, n)
    ensures m == n
  {
    assert m < n ==> Retryable(c, w.outcome(m));
    assert n < m ==> Retryable(c, w.outcome(n));
  }

  /** Every pause lies between two attempts, under the backoff ceiling, and ends by the deadline. */
  ghost predicate PausesOk(w: World, c: Config, pauses: seq<nat>) {
    forall k :: 0 <= k < |pauses| ==>
      pauses[k] <= BackoffDuration(k + 1) && w.clock(k + 1) + pauses[k] <= Deadline(w, c)
  }

  /** `None` when there is no time left to pause. */
  method BackoffDelay(w: World, c: Config, attempt: nat, remaining: nat) returns (slept: bool, pause: nat)
    requires attempt >= 1 && Sane(w, c)
    ensures slept <==> remaining > 0
    ensures pause <= BackoffDuration(attempt) && pause <= remaining
  {
    BackoffDoubles(attempt, BackoffDuration(attempt), BackoffDuration(attempt + 1));
    var ceiling := Min(BackoffDuration(attempt), remaining);
    if ceiling == 0 { return false, 0; }
    var jitter := w.draw(attempt, ceiling / MILLISECOND);
    return true, jitter * MILLISECOND;
  }

  /** The loop stops at the one attempt that ends the request and answers with its outcome. */
  method Request(w: World, c: Config) returns (reply: Reply, attempts: nat, pauses: seq<nat>)
    requires Sane(w, c)
    ensures IsLast(w, c, attempts) && reply == ReplyTo(c, w.outcome(attempts))
    ensures |pauses| == attempts - 1 && PausesOk(w, c, pauses)
  {
    var maxAttempts := Min(c.retries + 1, U32_MAX);
    var deadline := w.clock(0) + c.budget;
    var attempt := 0;
    pauses := [];
    while true
      invariant 0 <= attempt < maxAttempts && |pauses| == attempt && PausesOk(w, c, pauses)
      invariant forall k :: 1 <= k <= attempt ==> Retryable(c, w.outcome(k)) && w.clock(k) < deadline
      decreases maxAttempts - attempt
    {
      attempt := attempt + 1;
      var outcome := w.outcome(attempt);
      var lastAttempt := attempt >= maxAttempts;
      var now := w.clock(attempt);
      var remaining := if now < deadline then deadline - now else 0;
      match outcome
      case Answer(status) =>
        if !c.raise { return Raw(status), attempt, pauses; }
        if !lastAttempt && status != 403 && status != 429 && status in c.retryOn {
          var slept, pause := BackoffDelay(w, c, attempt, remaining);
          if slept {
            pauses := pauses + [pause];
            continue;
          }
        }
        return Mapped(status), attempt, pauses;
      case TransportError =>
        if !lastAttempt {
          var slept, pause := BackoffDelay(w, c, attempt, remaining);
          if slept {
            pauses := pauses + [pause];
            continue;
          }
        }
        return Failed, attempt, pauses;
    }
  }
}
