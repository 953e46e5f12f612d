/** The persisted circuit breaker of zoeken/zoeken-server/src/engine_health.rs for one engine, with
    the health row that storage keeps for each hour. Durations are nanoseconds, clock readings are
    Unix milliseconds and are a parameter. */
module EngineHealth {
  import opened Wrappers

  const MILLISECOND: nat := 1_000_000
  const DAY: nat := 86_400_000 * MILLISECOND
  const HOUR_MS: int := 3_600_000
  const I64_MAX: int := 0x7FFF_FFFF_FFFF_FFFF
  const I64_MIN: int := -0x8000_0000_0000_0000
  const U64_RANGE: int := 0x1_0000_0000_0000_0000

  datatype Category =
    | CaptchaWall | CloudflareWall | RecaptchaWall | Denied | RateLimited | TimedOut | Expired | Unparsed | Other

  datatype Error =
    | AccessDenied | CloudflareAccessDenied | Captcha | CloudflareCaptcha | RecaptchaCaptcha | TooManyRequests
    | Parse | Timeout | QueueExpired | Unexpected

  function CategoryOf(e: Error): Category {
    match e
    case Captcha => CaptchaWall
    case CloudflareCaptcha => CloudflareWall
    case RecaptchaCaptcha => RecaptchaWall
    case AccessDenied => Denied
    case CloudflareAccessDenied => Denied
    case TooManyRequests => RateLimited
    case Timeout => TimedOut
    case QueueExpired => Expired
    case Parse => Unparsed
    case Unexpected => Other
  }

  datatype Policy = Policy(threshold: nat, base: nat, max: nat, accessDenied: nat, captcha: nat, tooManyRequests: nat,
                           cfCaptcha: nat, cfAccessDenied: nat, recaptchaCaptcha: nat)

  datatype Status = Open | HalfOpen | Closed

  /** The newest hourly row: counts of the hour, and the circuit as last recorded in it. */
  datatype Row = Row(bucket: int, successes: nat, timeouts: nat, errors: nat, status: Status,
                     cooldownUntil: Option<int>, lastCategory: Option<Category>)

  type Health = Option<Row>

  // ----- the gate -----

  function CircuitIsOpen(h: Health, now: int): bool {
    h.Some? && h.value.status.Open? && h.value.cooldownUntil.Some? && h.value.cooldownUntil.value > now
  }

  // ----- how long a failure suspends the engine -----

  function CrossesThreshold(count: nat, threshold: nat): bool { threshold != 0 && count + 1 >= threshold }

  /** The suspension configured for an error; zero means that the error suspends nothing. */
  function ExplicitDuration(p: Policy, engine: string, e: Error): Option<nat> {
    match e
    case AccessDenied => Some(p.accessDenied)
    case CloudflareAccessDenied => Some(p.cfAccessDenied)
    case Captcha => Some(if engine == "duckduckgo" then 0 else p.captcha)
    case CloudflareCaptcha => Some(p.cfCaptcha)
    case RecaptchaCaptcha => Some(p.recaptchaCaptcha)
    case TooManyRequests => Some(p.tooManyRequests)
    case _ => None
  }

  function ErrorCount(h: Health): nat { if h.Some? then h.value.errors else 0 }

  function TimeoutCount(h: Health): nat { if h.Some? then h.value.timeouts else 0 }

  /** The suspension before escalation; zero stands for none. */
  function Base(p: Policy, engine: string, e: Error, previous: Health): nat {
    var explicit := ExplicitDuration(p, engine, e);
    if explicit.Some? then explicit.value
    else match e
         case Parse => if CrossesThreshold(ErrorCount(previous), p.threshold) then p.base else 0
         case Timeout => if CrossesThreshold(TimeoutCount(previous), p.threshold) then p.base else 0
         case Unexpected => if CrossesThreshold(ErrorCount(previous), p.threshold) then p.base else 0
         case _ => 0
  }

  predicate Recurrent(previous: Health, e: Error) {
    && previous.Some? && previous.value.lastCategory == Some(CategoryOf(e))
    && (previous.value.status.Open? || previous.value.status.HalfOpen?)
  }

  /** A failure of the recorded kind doubles the suspension, up to a day. */
  function CooldownFor(p: Policy, engine: string, e: Error, previous: Health): Option<nat> {
    var base := Base(p, engine, e, previous);
    if base == 0 then None
    else if Recurrent(previous, e) then Some(Min(2 * base, DAY))
    else Some(base)
  }

  /** What each failure costs an engine that did not just fail in the same way: walls and refusals
      their configured suspensions, of which captchas spare one engine; unexpected and unparsed
      answers, and timeouts, the base suspension once they add up; an expired queue nothing. */
  lemma FirstSuspension(p: Policy, engine: string, e: Error, h: Health, d: nat)
    requires !Recurrent(h, e)
    requires match e
             case AccessDenied => d == p.accessDenied
             case CloudflareAccessDenied => d == p.cfAccessDenied
             case Captcha => d == if engine == "duckduckgo" then 0 else p.captcha
             case CloudflareCaptcha => d == p.cfCaptcha
             case RecaptchaCaptcha => d == p.recaptchaCaptcha
             case TooManyRequests => d == p.tooManyRequests
             case QueueExpired => d == 0
             case Timeout =>
               d == (if p.threshold > 0 && h.Some? && h.value.timeouts + 1 >= p.threshold then p.base
                     else if p.threshold == 1 then p.base else 0)
             case _ =>
               d == (if p.threshold > 0 && h.Some? && h.value.errors + 1 >= p.threshold then p.base
                     else if p.threshold == 1 then p.base else 0)
    ensures CooldownFor(p, engine, e, h) == if d == 0 then None else Some(d)
  {
  }

  /** A failure like the one before doubles that, up to a day. */
  lemma NextSuspension(p: Policy, engine: string, e: Error, h: Health)
    requires h.Some? && !h.value.status.Closed? && h.value.lastCategory == Some(CategoryOf(e))
    ensures var once := CooldownFor(p, engine, e, Some(h.value.(status := Closed)));
            CooldownFor(p, engine, e, h)
            == match once
               case None => None
               case Some(d) => var day := 24 * 3600 * 1_000_000_000; Some(if 2 * d < day then 2 * d else day)
  {
  }

  /** Failures are of one kind only if they are the same, or both are refusals. */
  lemma KindsOfFailure(a: Error, b: Error)
    ensures CategoryOf(a) == CategoryOf(b) <==>
            a == b || {a, b} == {AccessDenied, CloudflareAccessDenied}
  {
  }

  // ----- recording -----

  /** `as i64` keeps the low 64 bits. */
  function AsI64(n: nat): int {
    var low := n % U64_RANGE;
    if low > I64_MAX then low - U64_RANGE else low
  }

  function SaturatingAdd(a: int, b: int): int {
    if a + b > I64_MAX then I64_MAX else if a + b < I64_MIN then I64_MIN else a + b
  }

  /** The low 64 bits as a signed number. */
  lemma AsI64Means(n: nat)
    ensures I64_MIN <= AsI64(n) <= I64_MAX && AsI64(n + U64_RANGE) == AsI64(n)
    ensures n <= I64_MAX ==> AsI64(n) == n
    ensures I64_MAX < n < U64_RANGE ==> AsI64(n) == n - U64_RANGE
  {
  }

  /** The sum, or the end of the range that it passes. */
  lemma SaturatingMeans(a: int, b: int)
    ensures var r := SaturatingAdd(a, b);
            && I64_MIN <= r <= I64_MAX && (I64_MIN <= a + b <= I64_MAX ==> r == a + b)
            && (a + b > I64_MAX ==> r == I64_MAX) && (a + b < I64_MIN ==> r == I64_MIN)
  {
  }

  datatype Update = Update(bucket: int, success: bool, timedOut: bool, category: Option<Category>, status: Status,
                           cooldownUntil: Option<int>)

  /** `None` is a success. */
  function UpdateFor(p: Policy, engine: string, result: Option<Error>, previous: Health, now: int): Update {
    match result
    case None =>
      var status := if previous.Some? && previous.value.status.Open? then HalfOpen else Closed;
      Update(now / HOUR_MS, true, false, None, status, None)
    case Some(e) =>
      var cooldown := CooldownFor(p, engine, e, previous);
      var until := if cooldown.Some? then Some(SaturatingAdd(now, AsI64(cooldown.value / MILLISECOND))) else None;
      Update(now / HOUR_MS, false, e.Timeout?, Some(CategoryOf(e)), if cooldown.Some? then Open else Closed, until)
  }

  function One(b: bool): nat { if b then 1 else 0 }

  /** The row of an hour adds up its counts and takes over the rest. A row of an hour that is past
      is not the newest row, so it changes nothing that is read again. */
  function Recorded(h: Health, u: Update): Health {
    if h.Some? && h.value.bucket > u.bucket then h
    else
      var same := h.Some? && h.value.bucket == u.bucket;
      Some(Row(u.bucket, One(u.success) + (if same then h.value.successes else 0),
               One(u.timedOut) + (if same then h.value.timeouts else 0),
               One(!u.success) + (if same then h.value.errors else 0),
               u.status, u.cooldownUntil, u.category))
  }

  predicate HasExpired(h: Health, now: int) {
    h.Some? && h.value.status.Open? && h.value.cooldownUntil.Some? && h.value.cooldownUntil.value <= now
  }

  function Cleared(h: Health, now: int): Health {
    if HasExpired(h, now) then Some(h.value.(cooldownUntil := None)) else h
  }

  // ----- sequential runs -----

  /** A request of the engine, judged by the gate at `at` and recorded at `done`, or the sweep that
      clears expired cooldowns. */
  datatype Event = Request(at: int, done: int, result: Option<Error>) | Sweep(now: int)

  predicate Admitted(h: Health, ev: Event) { ev.Request? && !CircuitIsOpen(h, ev.at) }

  function Step(p: Policy, engine: string, h: Health, ev: Event): Health {
    match ev
    case Sweep(now) => Cleared(h, now)
    case Request(at, done, result) =>
      if CircuitIsOpen(h, at) then h else Recorded(h, UpdateFor(p, engine, result, h, done))
  }

  function After(p: Policy, engine: string, h: Health, evs: seq<Event>): Health {
    if evs == [] then h else Step(p, engine, After(p, engine, h, evs[..|evs| - 1]), evs[|evs| - 1])
  }

  /** A stored cooldown end belongs to an open circuit. */
  predicate CooldownMeansOpen(h: Health) { h.Some? && h.value.cooldownUntil.Some? ==> h.value.status.Open? }

  /** A half-open row follows a success, so it carries no error category. */
  predicate HalfOpenIsClean(h: Health) { h.Some? && h.value.status.HalfOpen? ==> h.value.lastCategory.None? }

  /** Both hold after any sequential run from an empty table. */
  lemma {:induction false} RowsAreConsistent(p: Policy, engine: string, evs: seq<Event>)
    ensures CooldownMeansOpen(After(p, engine, None, evs)) && HalfOpenIsClean(After(p, engine, None, evs))
    decreases |evs|
  {
    if evs != [] { RowsAreConsistent(p, engine, evs[..|evs| - 1]); }
  }

  /** What an admitted request records is open exactly when it stores a cooldown end, which is
      exactly when it failed with a suspension. */
  lemma OpenIffCooldown(p: Policy, engine: string, h: Health, ev: Event)
    requires Admitted(h, ev) && (h.Some? ==> h.value.bucket <= ev.done / HOUR_MS)
    ensures var row := Step(p, engine, h, ev);
            && row.Some? && (row.value.status.Open? <==> row.value.cooldownUntil.Some?)
            && (row.value.status.Open? <==> ev.result.Some? && CooldownFor(p, engine, ev.result.value, h).Some?)
  {
  }

  /** The event records into the newest row, or opens one. */
  predicate Records(h: Health, ev: Event) {
    Admitted(h, ev) && (h.Some? ==> h.value.bucket <= ev.done / HOUR_MS)
  }

  /** A sweep found the row expired, and no request has been recorded in it since. */
  ghost predicate SweptLast(p: Policy, engine: string, evs: seq<Event>) {
    exists i :: 0 <= i < |evs| && SweptAt(p, engine, evs, i) && NoRecordAfter(p, engine, evs, i)
  }

  predicate SweptAt(p: Policy, engine: string, evs: seq<Event>, i: nat)
    requires i < |evs|
  {
    evs[i].Sweep? && HasExpired(After(p, engine, None, evs[..i]), evs[i].now)
  }

  predicate NoRecordAfter(p: Policy, engine: string, evs: seq<Event>, i: nat) {
    forall k :: i < k < |evs| ==> !Records(After(p, engine, None, evs[..k]), evs[k])
  }

  lemma SweptSnoc(p: Policy, engine: string, init: seq<Event>, ev: Event)
    ensures var h := After(p, engine, None, init);
            SweptLast(p, engine, init + [ev]) <==>
              (ev.Sweep? && HasExpired(h, ev.now)) || (SweptLast(p, engine, init) && !Records(h, ev))
  {
    var evs, n := init + [ev], |init|;
    assert evs[..n] == init;
    forall k | 0 <= k < n ensures evs[..k] == init[..k] {}
    if ev.Sweep? && HasExpired(After(p, engine, None, init), ev.now) {
      assert SweptAt(p, engine, evs, n) && NoRecordAfter(p, engine, evs, n);
    }
    if SweptLast(p, engine, init) && !Records(After(p, engine, None, init), ev) {
      var i :| 0 <= i < n && SweptAt(p, engine, init, i) && NoRecordAfter(p, engine, init, i);
      assert SweptAt(p, engine, evs, i) && NoRecordAfter(p, engine, evs, i);
    }
    if SweptLast(p, engine, evs) {
      var i :| 0 <= i <= n && SweptAt(p, engine, evs, i) && NoRecordAfter(p, engine, evs, i);
      if i < n { assert SweptAt(p, engine, init, i) && NoRecordAfter(p, engine, init, i); }
    }
  }

  /** Over every run an open row lacks an end exactly if a sweep took it and nothing was recorded
      since; otherwise a row is open exactly when an end is stored. */
  lemma {:induction false} OpenWithoutEndIff(p: Policy, engine: string, evs: seq<Event>)
    ensures var h := After(p, engine, None, evs);
            h.Some? && h.value.status.Open? && h.value.cooldownUntil.None? <==> SweptLast(p, engine, evs)
    decreases |evs|
  {
    if evs != [] {
      var init, ev := evs[..|evs| - 1], evs[|evs| - 1];
      var h := After(p, engine, None, init);
      assert evs == init + [ev];
      OpenWithoutEndIff(p, engine, init);
      SweptSnoc(p, engine, init, ev);
      if Records(h, ev) { OpenIffCooldown(p, engine, h, ev); }
    }
  }

  /** The stored end lies one cooldown after the recording, unless that leaves the 64-bit range. */
  lemma CooldownEnd(p: Policy, engine: string, e: Error, h: Health, now: int)
    requires CooldownFor(p, engine, e, h).Some? && 0 <= now
    requires now + CooldownFor(p, engine, e, h).value / MILLISECOND <= I64_MAX
    ensures UpdateFor(p, engine, Some(e), h, now).cooldownUntil
            == Some(now + CooldownFor(p, engine, e, h).value / MILLISECOND)
  {
  }

  /** An open row with an end rejects requests before that end and no others; from the end on the sweep
      takes the end away, and without one nothing is rejected. */
  lemma GateIff(p: Policy, engine: string, h: Health, at: int, done: int, result: Option<Error>)
    requires h.Some? && h.value.status.Open? && h.value.cooldownUntil.Some?
    ensures var end := h.value.cooldownUntil.value;
            && (Admitted(h, Request(at, done, result)) <==> at >= end)
            && (at < end ==> Step(p, engine, h, Sweep(at)) == h)
            && (at >= end ==> Step(p, engine, h, Sweep(at)) == Some(h.value.(cooldownUntil := None)))
  {
  }

  predicate AllBefore(evs: seq<Event>, end: int) {
    forall i :: 0 <= i < |evs| ==> (if evs[i].Request? then evs[i].at else evs[i].now) < end
  }

  /** Until its cooldown ends, an open circuit lets no request pass and does not change, whatever
      happens. */
  lemma {:induction false} GateHolds(p: Policy, engine: string, h: Health, evs: seq<Event>, end: int)
    requires h.Some? && h.value.status.Open? && h.value.cooldownUntil == Some(end) && AllBefore(evs, end)
    ensures After(p, engine, h, evs) == h
    ensures forall i :: 0 <= i < |evs| ==> !Admitted(After(p, engine, h, evs[..i]), evs[i])
    decreases |evs|
  {
    if evs != [] {
      var init := evs[..|evs| - 1];
      GateHolds(p, engine, h, init, end);
      forall i | 0 <= i < |evs| ensures !Admitted(After(p, engine, h, evs[..i]), evs[i]) {
        if i < |init| { assert evs[..i] == init[..i] && evs[i] == init[i]; }
      }
    }
  }

  /** A failure that earns a cooldown keeps every request out from its recording until the cooldown is
      over, whatever happens in between. */
  lemma SuspensionHolds(p: Policy, engine: string, h: Health, failure: Event, evs: seq<Event>)
    requires Records(h, failure) && failure.result.Some? && failure.done >= 0
    requires CooldownFor(p, engine, failure.result.value, h).Some?
    requires var end := failure.done + CooldownFor(p, engine, failure.result.value, h).value / MILLISECOND;
             end <= I64_MAX && AllBefore(evs, end)
    ensures var row := Step(p, engine, h, failure);
            forall i :: 0 <= i < |evs| ==> !Admitted(After(p, engine, row, evs[..i]), evs[i])
  {
    OpenIffCooldown(p, engine, h, failure);
    CooldownEnd(p, engine, failure.result.value, h, failure.done);
    var end := failure.done + CooldownFor(p, engine, failure.result.value, h).value / MILLISECOND;
    GateHolds(p, engine, Step(p, engine, h, failure), evs, end);
  }

  function StatusOf(h: Health): Status { if h.Some? then h.value.status else Closed }

  /** An admitted failure that earns no cooldown. */
  predicate ForgivenFailure(p: Policy, engine: string, h: Health, ev: Event) {
    Admitted(h, ev) && ev.result.Some? && CooldownFor(p, engine, ev.result.value, h).None?
  }

  /** A run in which some state after `from` events or later is half open. */
  ghost predicate PassesHalfOpen(p: Policy, engine: string, h: Health, evs: seq<Event>) {
    exists i :: 0 <= i <= |evs| && StatusOf(After(p, engine, h, evs[..i])).HalfOpen?
  }

  ghost predicate NoForgivenFailure(p: Policy, engine: string, h: Health, evs: seq<Event>) {
    forall i :: 0 <= i < |evs| ==> !ForgivenFailure(p, engine, After(p, engine, h, evs[..i]), evs[i])
  }

  /** From open to closed there are two ways only: through half open, or by a failure that earns no
      cooldown. */
  lemma {:induction false} OpenToClosed(p: Policy, engine: string, h: Health, evs: seq<Event>)
    requires StatusOf(h).Open? && NoForgivenFailure(p, engine, h, evs) && !PassesHalfOpen(p, engine, h, evs)
    ensures StatusOf(After(p, engine, h, evs)).Open?
    decreases |evs|
  {
    if evs != [] {
      var init, ev := evs[..|evs| - 1], evs[|evs| - 1];
      forall i | 0 <= i <= |init| ensures evs[..i] == init[..i] {}
      forall i | 0 <= i < |init| ensures !ForgivenFailure(p, engine, After(p, engine, h, init[..i]), init[i]) {
        assert evs[..i] == init[..i] && evs[i] == init[i];
      }
      OpenToClosed(p, engine, h, init);
      assert evs[..|evs|] == evs;
      assert !ForgivenFailure(p, engine, After(p, engine, h, evs[..|init|]), evs[|init|]);
    }
  }

  // ----- escalation -----

  /** The longest suspension the policy configures for anything. */
  function LongestBase(p: Policy): nat {
    Max(p.base, Max(p.accessDenied, Max(p.captcha, Max(p.tooManyRequests,
      Max(p.cfCaptcha, Max(p.cfAccessDenied, p.recaptchaCaptcha))))))
  }

  /** Escalation doubles the configured suspension, never the last one: in every state a cooldown is
      at most the longest configured one or a day. */
  lemma CooldownIsBounded(p: Policy, engine: string, e: Error, h: Health)
    ensures var c := CooldownFor(p, engine, e, h); c.Some? ==> 0 < c.value <= Max(LongestBase(p), DAY)
  {
    assert Base(p, engine, e, h) <= LongestBase(p);
  }

  predicate ClockStarted(evs: seq<Event>) { forall i :: 0 <= i < |evs| && evs[i].Request? ==> evs[i].done >= 0 }

  lemma UntilIsBounded(p: Policy, engine: string, result: Option<Error>, h: Health, now: int)
    requires now >= 0
    ensures var until := UpdateFor(p, engine, result, h, now).cooldownUntil;
            until.Some? ==> until.value <= now + Max(LongestBase(p), DAY) / MILLISECOND
  {
    if result.Some? { CooldownIsBounded(p, engine, result.value, h); }
  }

  /** Over every run a stored cooldown ends at most the longest suspension, or a day, after one of
      the requests was recorded. */
  lemma {:induction false} StoredEndIsBounded(p: Policy, engine: string, evs: seq<Event>)
    requires ClockStarted(evs)
    ensures var h := After(p, engine, None, evs);
            h.Some? && h.value.cooldownUntil.Some? ==>
              exists i :: 0 <= i < |evs| && evs[i].Request? && evs[i].result.Some?
                          && h.value.cooldownUntil.value <= evs[i].done + Max(LongestBase(p), DAY) / MILLISECOND
    decreases |evs|
  {
    if evs != [] {
      var init, ev := evs[..|evs| - 1], evs[|evs| - 1];
      var before, h := After(p, engine, None, init), After(p, engine, None, evs);
      StoredEndIsBounded(p, engine, init);
      if ev.Request? { UntilIsBounded(p, engine, ev.result, before, ev.done); }
      if h.Some? && h.value.cooldownUntil.Some? {
        if before.Some? && h.value.cooldownUntil == before.value.cooldownUntil {
          var i :| 0 <= i < |init| && init[i].Request? && init[i].result.Some?
                   && h.value.cooldownUntil.value <= init[i].done + Max(LongestBase(p), DAY) / MILLISECOND;
          assert evs[i] == init[i];
        } else {
          assert evs[|evs| - 1] == ev;
        }
      }
    }
  }

  /** Escalation lengthens a suspension exactly when it is shorter than a day; a longer one is cut
      down to a day. */
  lemma EscalationLengthensIff(p: Policy, engine: string, e: Error, h: Health)
    requires Recurrent(h, e) && CooldownFor(p, engine, e, h).Some?
    ensures var (base, c) := (Base(p, engine, e, h), CooldownFor(p, engine, e, h).value);
            && (c > base <==> base < DAY) && (c < base <==> base > DAY) && (base > DAY ==> c == DAY)
  {
  }

  /** In a run from an empty table a failure escalates only if the newest row is an open circuit: a
      half-open row has no category to match. */
  lemma EscalatesOnlyFromOpen(p: Policy, engine: string, evs: seq<Event>, e: Error)
    ensures var h := After(p, engine, None, evs);
            Recurrent(h, e) <==> h.Some? && h.value.status.Open? && h.value.lastCategory == Some(CategoryOf(e))
  {
    RowsAreConsistent(p, engine, evs);
  }

  /** The configured maximum has no effect on any run. */
  lemma {:induction false} MaxHasNoEffect(p: Policy, max: nat, engine: string, h: Health, evs: seq<Event>)
    ensures After(p.(max := max), engine, h, evs) == After(p, engine, h, evs)
    decreases |evs|
  {
    if evs != [] { MaxHasNoEffect(p, max, engine, h, evs[..|evs| - 1]); }
  }

  // ----- what the threshold counts -----

  datatype Kind = Successes | Failures | Timeouts

  predicate IsOfKind(result: Option<Error>, kind: Kind) {
    match kind
    case Successes => result.None?
    case Failures => result.Some?
    case Timeouts => result == Some(Timeout)
  }

  /** How many requests of a run from an empty table were recorded with such a result in an hour. */
  function Recordings(p: Policy, engine: string, evs: seq<Event>, bucket: int, kind: Kind): nat {
    if evs == [] then 0
    else
      var init, ev := evs[..|evs| - 1], evs[|evs| - 1];
      Recordings(p, engine, init, bucket, kind)
      + if Admitted(After(p, engine, None, init), ev) && ev.done / HOUR_MS == bucket && IsOfKind(ev.result, kind) then 1
        else 0
  }

  /** The newest row counts the successes, failures and timeouts of its hour, whatever lies between
      them; later hours have none yet. */
  lemma {:induction false} CountsOfTheHour(p: Policy, engine: string, evs: seq<Event>)
    ensures var h := After(p, engine, None, evs);
            && (forall b, k :: (h.Some? ==> b > h.value.bucket) ==> Recordings(p, engine, evs, b, k) == 0)
            && (h.Some? ==> h.value.successes == Recordings(p, engine, evs, h.value.bucket, Successes))
            && (h.Some? ==> h.value.errors == Recordings(p, engine, evs, h.value.bucket, Failures))
            && (h.Some? ==> h.value.timeouts == Recordings(p, engine, evs, h.value.bucket, Timeouts))
    decreases |evs|
  {
    if evs != [] { CountsOfTheHour(p, engine, evs[..|evs| - 1]); }
  }

  /** An unexpected or unparsed failure suspends exactly when the newest recorded hour, together with
      it, has as many failures as the threshold asks for; a timeout counts timeouts only. */
  lemma ThresholdCountsTheHour(p: Policy, engine: string, evs: seq<Event>, e: Error)
    requires e.Parse? || e.Timeout? || e.Unexpected?
    ensures var h := After(p, engine, None, evs);
            var kind := if e.Timeout? then Timeouts else Failures;
            var earlier := if h.Some? then Recordings(p, engine, evs, h.value.bucket, kind) else 0;
            CooldownFor(p, engine, e, h).Some? <==> p.base > 0 && p.threshold > 0 && earlier + 1 >= p.threshold
  {
    CountsOfTheHour(p, engine, evs);
  }

  // ----- the executor's use of it -----

  /** The engine's health in storage; `records` counts the writes. */
  class HealthStore {
    var health: Health
    ghost var records: nat

    constructor ()
      ensures health == None && records == 0
    {
      health, records := None, 0;
    }

    method RecordEngineHealth(u: Update)
      modifies this
      ensures health == Recorded(old(health), u) && records == old(records) + 1
    {
      var same := health.Some? && health.value.bucket == u.bucket;
      if health.None? || health.value.bucket <= u.bucket {
        var successes := if same then health.value.successes else 0;
        var timeouts := if same then health.value.timeouts else 0;
        var errors := if same then health.value.errors else 0;
        health := Some(Row(u.bucket, successes + One(u.success), timeouts + One(u.timedOut),
                           errors + One(!u.success), u.status, u.cooldownUntil, u.category));
      }
      records := records + 1;
    }

    method ClearExpiredCooldowns(now: int)
      modifies this
      ensures health == Cleared(old(health), now) && records == old(records)
    {
      if HasExpired(health, now) { health := Some(health.value.(cooldownUntil := None)); }
    }
  }

  method RecordHealth(store: HealthStore, p: Policy, engine: string, result: Option<Error>, previous: Health, now: int)
    modifies store
    ensures store.health == Recorded(old(store.health), UpdateFor(p, engine, result, previous, now))
    ensures store.records == old(store.records) + 1
  {
    var status, category, until := Closed, None, None;
    match result {
      case None =>
        if previous.Some? && previous.value.status.Open? { status := HalfOpen; }
      case Some(e) =>
        var cooldown := CooldownFor(p, engine, e, previous);
        category := Some(CategoryOf(e));
        if cooldown.Some? {
          status := Open;
          until := Some(SaturatingAdd(now, AsI64(cooldown.value / MILLISECOND)));
        }
    }
    store.RecordEngineHealth(
      Update(now / HOUR_MS, result.None?, result.Some? && result.value.Timeout?, category, status, until));
  }

  /** A request in flight. If it is dropped before it is complete, it is recorded as a timeout. */
  class PendingHealth {
    const store: HealthStore
    const policy: Policy
    const engine: string
    const previous: Health
    var isComplete: bool

    constructor (store: HealthStore, policy: Policy, engine: string, previous: Health)
      ensures this.store == store && this.policy == policy && this.engine == engine && this.previous == previous
      ensures !isComplete
    {
      this.store, this.policy, this.engine, this.previous := store, policy, engine, previous;
      isComplete := false;
    }

    method Complete()
      modifies this
      ensures isComplete
    {
      isComplete := true;
    }

    method Drop(now: int)
      modifies store
      ensures isComplete ==> store.health == old(store.health) && store.records == old(store.records)
      ensures !isComplete ==>
                store.health == Recorded(old(store.health), UpdateFor(policy, engine, Some(Timeout), previous, now))
                && store.records == old(store.records) + 1
    {
      if isComplete { return; }
      RecordHealth(store, policy, engine, Some(Timeout), previous, now);
    }
  }

  /** How an admitted request ends: with a result, cancelled before there is one, or cancelled after
      it was marked complete and before its record was written. */
  datatype Ending = Ended(result: Option<Error>) | Cancelled | CancelledWriting

  /** A rejected request leaves storage alone. An admitted one is recorded exactly once, as a timeout
      if it is cancelled, except that the cancellation of the write itself loses the record. Nothing
      else writes in between. */
  method Attempt(store: HealthStore, p: Policy, engine: string, at: int, done: int, ending: Ending)
    returns (admitted: bool)
    modifies store
    ensures admitted == Admitted(old(store.health), Request(at, done, None))
    ensures store.records == old(store.records) + (if admitted && !ending.CancelledWriting? then 1 else 0)
    ensures ending.CancelledWriting? ==> store.health == old(store.health)
    ensures !ending.CancelledWriting? ==>
              var result := if ending.Ended? then ending.result else Some(Timeout);
              store.health == Step(p, engine, old(store.health), Request(at, done, result))
  {
    var previous := store.health;
    if CircuitIsOpen(previous, at) { return false; }
    var pending := new PendingHealth(store, p, engine, previous);
    match ending {
      case Ended(result) =>
        pending.Complete();
        RecordHealth(store, p, engine, result, previous, done);
      case CancelledWriting =>
        pending.Complete();
      case Cancelled =>
    }
    pending.Drop(done);
    return true;
  }
}
