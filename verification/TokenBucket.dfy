/** The rate limiter of zoeken/zoeken-botdetect/src/token_bucket.rs over real numbers: one bucket
    step, the per-key limiter, bounds over whole runs, and idle eviction. */
module TokenBucket {

  datatype Bucket = Bucket(tokens: real, last: real)

  /** The limits in force and the clock reading of one call. */
  datatype Call = Call(capacity: real, refill: real, now: real)

  function Full(capacity: real, now: real): Bucket { Bucket(capacity, now) }

  function MaxReal(a: real, b: real): real { if a < b then b else a }

  function MinReal(a: real, b: real): real { if a < b then a else b }

  /** Tokens available to a call. */
  function Refilled(b: Bucket, c: Call): real {
    MinReal(b.tokens + MaxReal(c.now - b.last, 0.0) * c.refill, c.capacity)
  }

  function Step(b: Bucket, c: Call, cost: real): (bool, Bucket) {
    var refilled := Refilled(b, c);
    if refilled >= cost then (true, Bucket(refilled - cost, c.now)) else (false, Bucket(refilled, c.now))
  }

  // ----- runs of one bucket -----

  function After(b: Bucket, calls: seq<Call>): Bucket
    decreases |calls|
  {
    if calls == [] then b else After(Step(b, calls[0], 1.0).1, calls[1..])
  }

  /** How many calls of the run are allowed. */
  function Allowed(b: Bucket, calls: seq<Call>): nat
    decreases |calls|
  {
    if calls == [] then 0
    else var (ok, next) := Step(b, calls[0], 1.0); (if ok then 1 else 0) + Allowed(next, calls[1..])
  }

  /** Total forward movement of the clock; steps backwards count for nothing. */
  function Forward(last: real, calls: seq<Call>): real
    decreases |calls|
  {
    if calls == [] then 0.0 else MaxReal(calls[0].now - last, 0.0) + Forward(calls[0].now, calls[1..])
  }

  predicate Sane(c: Call) { c.capacity >= 0.0 && c.refill >= 0.0 }

  /** Every call is sane and stays under the given limits. */
  predicate Within(calls: seq<Call>, capacity: real, refill: real) {
    calls == [] ||
    (Sane(calls[0]) && calls[0].capacity <= capacity && calls[0].refill <= refill
     && Within(calls[1..], capacity, refill))
  }

  lemma MulMono(x: real, a: real, b: real)
    requires x >= 0.0 && a <= b
    ensures x * a <= x * b
  {
  }

  lemma PositiveFactor(x: real, y: real)
    requires x * y >= 1.0 && y >= 0.0
    ensures x > 0.0
  {
    if x <= 0.0 { MulMono(y, x, 0.0); }
  }

  lemma StepBound(b: Bucket, c: Call, refill: real)
    requires Sane(c) && b.tokens >= 0.0 && c.refill <= refill
    ensures var (ok, next) := Step(b, c, 1.0);
            && 0.0 <= next.tokens <= c.capacity && next.last == c.now
            && next.tokens + (if ok then 1.0 else 0.0) <= b.tokens + MaxReal(c.now - b.last, 0.0) * refill
  {
    var elapsed := MaxReal(c.now - b.last, 0.0);
    MulMono(elapsed, 0.0, c.refill);
    MulMono(elapsed, c.refill, refill);
  }

  /** Tokens the forward movement of the clock is worth at a constant rate. */
  function Earned(last: real, calls: seq<Call>, refill: real): real
    decreases |calls|
  {
    if calls == [] then 0.0
    else MaxReal(calls[0].now - last, 0.0) * refill + Earned(calls[0].now, calls[1..], refill)
  }

  /** At a constant rate the clock earns the rate times its forward movement. */
  lemma {:induction false} EarnedIsForward(last: real, calls: seq<Call>, refill: real)
    ensures Earned(last, calls, refill) == Forward(last, calls) * refill
    decreases |calls|
  {
    if calls != [] {
      EarnedIsForward(calls[0].now, calls[1..], refill);
      Distribute(MaxReal(calls[0].now - last, 0.0), Forward(calls[0].now, calls[1..]), refill);
    }
  }

  lemma Distribute(x: real, y: real, z: real)
    ensures (x + y) * z == x * z + y * z
  {
  }

  /** One step of a run: what it takes, what the clock earned, and the bucket it leaves. */
  lemma FirstStep(b: Bucket, calls: seq<Call>, refill: real) returns (one: nat, gain: real, next: Bucket)
    requires calls != [] && Sane(calls[0]) && b.tokens >= 0.0 && calls[0].refill <= refill
    ensures 0.0 <= next.tokens && next.tokens + one as real <= b.tokens + gain
    ensures Allowed(b, calls) == one + Allowed(next, calls[1..])
    ensures After(b, calls) == After(next, calls[1..])
    ensures Earned(b.last, calls, refill) == gain + Earned(next.last, calls[1..], refill)
  {
    var step := Step(b, calls[0], 1.0);
    StepBound(b, calls[0], refill);
    one, gain, next := if step.0 then 1 else 0, MaxReal(calls[0].now - b.last, 0.0) * refill, step.1;
  }

  /** What a run lets through and leaves behind is at most what it started with plus the refill. */
  lemma {:induction false} Conservation(b: Bucket, calls: seq<Call>, capacity: real, refill: real)
    requires Within(calls, capacity, refill) && b.tokens >= 0.0
    ensures Allowed(b, calls) as real + After(b, calls).tokens <= b.tokens + Earned(b.last, calls, refill)
    decreases |calls|
  {
    if calls != [] {
      var one, gain, next := FirstStep(b, calls, refill);
      Conservation(next, calls[1..], capacity, refill);
      AddStep(one, Allowed(next, calls[1..]), After(next, calls[1..]).tokens, b.tokens, next.tokens, gain,
              Earned(next.last, calls[1..], refill));
    }
  }

  lemma AddStep(one: nat, more: nat, left: real, tokens: real, tokens': real, gain: real, earned: real)
    requires tokens' + one as real <= tokens + gain
    requires more as real + left <= tokens' + earned
    ensures (one + more) as real + left <= tokens + (gain + earned)
  {
  }

  /** Tokens stay between zero and the capacity of the last call. */
  lemma {:induction false} TokensInRange(b: Bucket, calls: seq<Call>, capacity: real, refill: real)
    requires b.tokens >= 0.0 && Within(calls, capacity, refill)
    ensures After(b, calls).tokens >= 0.0
    ensures calls != [] ==> After(b, calls).tokens <= calls[|calls| - 1].capacity <= capacity
    ensures calls != [] ==> After(b, calls).last == calls[|calls| - 1].now
    decreases |calls|
  {
    if calls != [] {
      StepBound(b, calls[0], calls[0].refill);
      TokensInRange(Step(b, calls[0], 1.0).1, calls[1..], capacity, refill);
    }
  }

  /** The rate bound, over every window of every run of a bucket created full, with limits that
      change between calls and a clock that may step backwards: at most the largest capacity plus
      what the forward movement of the clock earns at the largest refill rate, which by
      `EarnedIsForward` is their product. */
  lemma RateBound(capacity0: real, start: real, before: seq<Call>, window: seq<Call>, capacity: real, refill: real)
    requires 0.0 <= capacity0 <= capacity && Within(before, capacity, refill) && Within(window, capacity, refill)
    ensures var b := After(Full(capacity0, start), before);
            Allowed(b, window) as real <= capacity + Earned(b.last, window, refill)
  {
    TokensInRange(Full(capacity0, start), before, capacity, refill);
    WindowBound(After(Full(capacity0, start), before), window, capacity, refill);
  }

  lemma WindowBound(b: Bucket, window: seq<Call>, capacity: real, refill: real)
    requires 0.0 <= b.tokens <= capacity && Within(window, capacity, refill)
    ensures Allowed(b, window) as real <= capacity + Earned(b.last, window, refill)
  {
    Conservation(b, window, capacity, refill);
    TokensInRange(b, window, capacity, refill);
    ForgetLeft(Allowed(b, window), After(b, window).tokens, b.tokens, Earned(b.last, window, refill), capacity);
  }

  lemma ForgetLeft(allowed: nat, left: real, tokens: real, earned: real, capacity: real)
    requires allowed as real + left <= tokens + earned && left >= 0.0 && tokens <= capacity
    ensures allowed as real <= capacity + earned
  {
  }

  /** Every call comes at least one token's refill time after the one before it. */
  predicate Paced(last: real, calls: seq<Call>)
    decreases |calls|
  {
    calls == [] ||
    (Sane(calls[0]) && calls[0].capacity >= 1.0 && (calls[0].now - last) * calls[0].refill >= 1.0
     && Paced(calls[0].now, calls[1..]))
  }

  /** A caller that keeps that pace is never turned away. */
  lemma {:induction false} PacedCallsPass(b: Bucket, calls: seq<Call>)
    requires b.tokens >= 0.0 && Paced(b.last, calls)
    ensures Allowed(b, calls) == |calls|
    decreases |calls|
  {
    if calls != [] {
      PositiveFactor(calls[0].now - b.last, calls[0].refill);
      StepBound(b, calls[0], calls[0].refill);
      PacedCallsPass(Step(b, calls[0], 1.0).1, calls[1..]);
    }
  }

  // ----- the limiter -----

  type Buckets = map<string, Bucket>

  /** The bucket a call sees: a missing one is created full. */
  function BucketFor(m: Buckets, key: string, c: Call): Bucket {
    if key in m then m[key] else Full(c.capacity, c.now)
  }

  function Serve(m: Buckets, key: string, c: Call): (bool, Buckets) {
    var (ok, next) := Step(BucketFor(m, key, c), c, 1.0);
    (ok, m[key := next])
  }

  /** What is left when the cache drops an idle bucket. */
  function Dropped(m: Buckets, key: string): Buckets { m - {key} }

  class RateLimiter {
    var buckets: Buckets

    constructor ()
      ensures buckets == map[]
    {
      buckets := map[];
    }

    method CheckAt(key: string, capacity: real, refill: real, now: real) returns (allowed: bool)
      modifies this
      ensures (allowed, buckets) == Serve(old(buckets), key, Call(capacity, refill, now))
    {
      var c := Call(capacity, refill, now);
      if key !in buckets { buckets := buckets[key := Full(capacity, now)]; }
      var result := Step(buckets[key], c, 1.0);
      assert buckets[key := result.1] == old(buckets)[key := result.1];
      buckets := buckets[key := result.1];
      allowed := result.0;
    }

    /** The cache drops an idle bucket. */
    method Evict(key: string)
      modifies this
      ensures buckets == Dropped(old(buckets), key)
    {
      buckets := Dropped(buckets, key);
    }
  }

  // ----- idle eviction -----

  datatype Event = Check(key: string, call: Call) | Evicted(key: string, at: real)

  /** The answers of a limiter that acts on evictions, or of one that ignores them. */
  function Answers(m: Buckets, evs: seq<Event>, evicting: bool): seq<bool>
    decreases |evs|
  {
    if evs == [] then []
    else match evs[0]
         case Check(key, c) =>
           var (ok, next) := Serve(m, key, c);
           [ok] + Answers(next, evs[1..], evicting)
         case Evicted(key, _) => Answers(if evicting then Dropped(m, key) else m, evs[1..], evicting)
  }

  /** The clock does not step back and only buckets idle for at least `idle` are evicted. */
  predicate Legit(m: Buckets, time: real, idle: real, evs: seq<Event>)
    decreases |evs|
  {
    evs == [] ||
    match evs[0]
    case Check(key, c) => c.now >= time && Legit(Serve(m, key, c).1, c.now, idle, evs[1..])
    case Evicted(key, at) =>
      at >= time && (key in m ==> at - m[key].last >= idle) && Legit(Dropped(m, key), at, idle, evs[1..])
  }

  /** An idle period refills a bucket completely under the limits of every call. */
  predicate Refills(idle: real, c: Call) { Sane(c) && idle * c.refill >= c.capacity }

  /** A bucket that one limiter kept and the other dropped has been idle for the timeout. */
  ghost predicate Alike(kept: Buckets, dropped: Buckets, time: real, idle: real) {
    && (forall k :: k in dropped ==> k in kept && kept[k] == dropped[k])
    && (forall k :: k in kept ==> kept[k].tokens >= 0.0 && kept[k].last <= time)
    && (forall k :: k in kept && k !in dropped ==> time - kept[k].last >= idle)
  }

  /** A bucket idle for long enough serves a call exactly as a fresh one does. */
  lemma IdleIsFull(b: Bucket, c: Call, idle: real)
    requires b.tokens >= 0.0 && idle >= 0.0 && c.now - b.last >= idle && Refills(idle, c)
    ensures Step(b, c, 1.0) == Step(Full(c.capacity, c.now), c, 1.0)
  {
    MulMono(c.refill, idle, c.now - b.last);
  }

  lemma ServeAlike(kept: Buckets, dropped: Buckets, time: real, idle: real, key: string, c: Call)
    requires Alike(kept, dropped, time, idle) && idle >= 0.0 && c.now >= time && Refills(idle, c)
    ensures Serve(kept, key, c).0 == Serve(dropped, key, c).0
    ensures Alike(Serve(kept, key, c).1, Serve(dropped, key, c).1, c.now, idle)
  {
    if key in kept && key !in dropped { IdleIsFull(kept[key], c, idle); }
    StepBound(BucketFor(kept, key, c), c, c.refill);
  }

  /** Idle eviction cannot be observed when the timeout refills every bucket, for any number of
      keys and with limits that change between calls. */
  lemma {:induction false} EvictionUnobservable(kept: Buckets, dropped: Buckets, time: real, idle: real,
                                                evs: seq<Event>)
    requires Alike(kept, dropped, time, idle) && idle >= 0.0 && Legit(dropped, time, idle, evs)
    requires forall i :: 0 <= i < |evs| && evs[i].Check? ==> Refills(idle, evs[i].call)
    ensures Answers(kept, evs, false) == Answers(dropped, evs, true)
    decreases |evs|
  {
    if evs != [] {
      match evs[0]
      case Check(key, c) =>
        ServeAlike(kept, dropped, time, idle, key, c);
        EvictionUnobservable(Serve(kept, key, c).1, Serve(dropped, key, c).1, c.now, idle, evs[1..]);
      case Evicted(key, at) =>
        EvictionUnobservable(kept, Dropped(dropped, key), at, idle, evs[1..]);
    }
  }

  // ----- exactly when eviction is unobservable under a choice of limits -----

  datatype Limits = Limits(capacity: real, refill: real)

  predicate Under(c: Call, ls: set<Limits>) { Limits(c.capacity, c.refill) in ls }

  /** Every call is made under some of the limits, which may change from call to call. */
  ghost predicate UnderLimits(evs: seq<Event>, ls: set<Limits>) {
    forall i :: 0 <= i < |evs| && evs[i].Check? ==> Under(evs[i].call, ls)
  }

  /** No legitimate history, however long, makes the two limiters answer differently. */
  ghost predicate Unobservable(ls: set<Limits>, idle: real) {
    forall evs: seq<Event>, time: real ::
      UnderLimits(evs, ls) && Legit(map[], time, idle, evs) ==>
        Answers(map[], evs, false) == Answers(map[], evs, true)
  }

  ghost predicate AllTiny(ls: set<Limits>) { forall l :: l in ls ==> l.capacity < 1.0 }

  ghost predicate AllRefill(ls: set<Limits>, idle: real) { forall l :: l in ls ==> idle * l.refill >= l.capacity }

  /** With less than one token of capacity every answer is no. */
  lemma {:induction false} TinyCapacityDenies(m: Buckets, evs: seq<Event>, ls: set<Limits>, evicting: bool)
    requires AllTiny(ls) && UnderLimits(evs, ls)
    ensures forall i :: 0 <= i < |Answers(m, evs, evicting)| ==> !Answers(m, evs, evicting)[i]
    ensures |Answers(m, evs, evicting)| == Checks(evs)
    decreases |evs|
  {
    if evs != [] {
      match evs[0]
      case Check(key, c) => TinyCapacityDenies(Serve(m, key, c).1, evs[1..], ls, evicting);
      case Evicted(key, _) => TinyCapacityDenies(if evicting then Dropped(m, key) else m, evs[1..], ls, evicting);
    }
  }

  function Checks(evs: seq<Event>): nat {
    if evs == [] then 0 else (if evs[0].Check? then 1 else 0) + Checks(evs[1..])
  }

  /** `n` calls at one instant. */
  function Burst(c: Call, n: nat): seq<Call> {
    if n == 0 then [] else [c] + Burst(c, n - 1)
  }

  function AsEvents(calls: seq<Call>): seq<Event> {
    seq(|calls|, i requires 0 <= i < |calls| => Check("", calls[i]))
  }

  /** A burst that the tokens cover passes and takes one token a call. */
  lemma {:induction false} BurstPasses(b: Bucket, c: Call, n: nat)
    requires b.last == c.now && 1.0 <= c.capacity && n as real <= b.tokens <= c.capacity
    ensures Allowed(b, Burst(c, n)) == n && After(b, Burst(c, n)) == Bucket(b.tokens - n as real, c.now)
    decreases n
  {
    if n > 0 {
      assert 0.0 * c.refill == 0.0;
      assert Refilled(b, c) == b.tokens;
      assert Burst(c, n)[1..] == Burst(c, n - 1);
      BurstPasses(Bucket(b.tokens - 1.0, c.now), c, n - 1);
    }
  }

  lemma {:induction false} RunConcat(b: Bucket, x: seq<Call>, y: seq<Call>)
    ensures After(b, x + y) == After(After(b, x), y)
    ensures Allowed(b, x + y) == Allowed(b, x) + Allowed(After(b, x), y)
    decreases |x|
  {
    if x == [] {
      assert x + y == y;
    } else {
      RunConcat(Step(b, x[0], 1.0).1, x[1..], y);
      assert (x + y)[1..] == x[1..] + y;
    }
  }

  /** The answers of a run of one bucket. */
  function Oks(b: Bucket, calls: seq<Call>): seq<bool>
    decreases |calls|
  {
    if calls == [] then [] else [Step(b, calls[0], 1.0).0] + Oks(Step(b, calls[0], 1.0).1, calls[1..])
  }

  predicate Monotone(time: real, calls: seq<Call>)
    decreases |calls|
  {
    calls == [] || (calls[0].now >= time && Monotone(calls[0].now, calls[1..]))
  }

  /** Equal answers let the same number through. */
  lemma {:induction false} SameOksSameAllowed(a: Bucket, b: Bucket, calls: seq<Call>)
    ensures Oks(a, calls) == Oks(b, calls) ==> Allowed(a, calls) == Allowed(b, calls)
    decreases |calls|
  {
    if calls != [] {
      var x, y := Step(a, calls[0], 1.0), Step(b, calls[0], 1.0);
      SameOksSameAllowed(x.1, y.1, calls[1..]);
      assert Oks(a, calls)[0] == x.0 && Oks(a, calls)[1..] == Oks(x.1, calls[1..]);
      assert Oks(b, calls)[0] == y.0 && Oks(b, calls)[1..] == Oks(y.1, calls[1..]);
    }
  }

  lemma {:induction false} OksLength(b: Bucket, calls: seq<Call>)
    ensures |Oks(b, calls)| == |calls|
    decreases |calls|
  {
    if calls != [] { OksLength(Step(b, calls[0], 1.0).1, calls[1..]); }
  }

  lemma EventsNext(calls: seq<Call>, more: seq<Event>)
    requires calls != []
    ensures (AsEvents(calls) + more)[0] == Check("", calls[0])
    ensures (AsEvents(calls) + more)[1..] == AsEvents(calls[1..]) + more
  {
  }

  lemma FirstAnswer(m: Buckets, calls: seq<Call>, more: seq<Event>, evicting: bool) returns (ok: bool, next: Bucket)
    requires "" in m && calls != []
    ensures Answers(m, AsEvents(calls) + more, evicting)
            == [ok] + Answers(m["" := next], AsEvents(calls[1..]) + more, evicting)
    ensures Oks(m[""], calls) == [ok] + Oks(next, calls[1..])
    ensures After(m[""], calls) == After(next, calls[1..])
  {
    EventsNext(calls, more);
    var step := Step(m[""], calls[0], 1.0);
    ok, next := step.0, step.1;
  }

  /** A stretch of calls for one key, seen by a limiter. */
  lemma {:induction false} ServeRun(m: Buckets, calls: seq<Call>, more: seq<Event>, evicting: bool)
    requires "" in m
    ensures Answers(m, AsEvents(calls) + more, evicting)
            == Oks(m[""], calls) + Answers(m["" := After(m[""], calls)], more, evicting)
    decreases |calls|
  {
    if calls == [] {
      assert AsEvents(calls) + more == more && m["" := m[""]] == m;
    } else {
      var ok, next := FirstAnswer(m, calls, more, evicting);
      ServeRun(m["" := next], calls[1..], more, evicting);
      assert m["" := next]["" := After(next, calls[1..])] == m["" := After(m[""], calls)];
      Regroup([ok], Oks(next, calls[1..]), Answers(m["" := After(m[""], calls)], more, evicting));
    }
  }

  lemma Regroup(x: seq<bool>, y: seq<bool>, z: seq<bool>)
    ensures x + (y + z) == (x + y) + z
  {
  }

  /** A stretch of calls for a key without a bucket. */
  lemma FreshRun(calls: seq<Call>, more: seq<Event>, evicting: bool)
    requires calls != []
    ensures var full := Full(calls[0].capacity, calls[0].now);
            Answers(map[], AsEvents(calls) + more, evicting)
            == Oks(full, calls) + Answers(map["" := After(full, calls)], more, evicting)
  {
    var full := Full(calls[0].capacity, calls[0].now);
    ServeRun(map["" := full], calls, more, evicting);
    EventsNext(calls, more);
    var next := Step(full, calls[0], 1.0).1;
    assert map["" := full]["" := next] == map["" := next];
    assert map["" := full]["" := After(full, calls)] == map["" := After(full, calls)];
  }

  lemma {:induction false} LegitRun(m: Buckets, time: real, idle: real, calls: seq<Call>, more: seq<Event>)
    requires "" in m && Monotone(time, calls)
    requires Legit(m["" := After(m[""], calls)], if calls == [] then time else calls[|calls| - 1].now, idle, more)
    ensures Legit(m, time, idle, AsEvents(calls) + more)
    decreases |calls|
  {
    if calls == [] {
      assert AsEvents(calls) + more == more && m["" := m[""]] == m;
    } else {
      EventsNext(calls, more);
      var next := Step(m[""], calls[0], 1.0).1;
      assert m["" := next]["" := After(next, calls[1..])] == m["" := After(m[""], calls)];
      LegitRun(m["" := next], calls[0].now, idle, calls[1..], more);
    }
  }

  lemma FreshLegit(time: real, idle: real, calls: seq<Call>, more: seq<Event>)
    requires calls != [] && Monotone(time, calls)
    requires Legit(map["" := After(Full(calls[0].capacity, calls[0].now), calls)], calls[|calls| - 1].now, idle, more)
    ensures Legit(map[], time, idle, AsEvents(calls) + more)
  {
    var full := Full(calls[0].capacity, calls[0].now);
    assert map["" := full]["" := After(full, calls)] == map["" := After(full, calls)];
    LegitRun(map["" := full], time, idle, calls, more);
    EventsNext(calls, more);
    assert map["" := full]["" := Step(full, calls[0], 1.0).1] == map["" := Step(full, calls[0], 1.0).1];
  }

  /** A history that drops the bucket once, between two stretches of calls. */
  function OneDrop(first: seq<Call>, at: real, tail: seq<Call>): seq<Event> {
    AsEvents(first) + ([Evicted("", at)] + AsEvents(tail))
  }

  /** The bucket when the first stretch is over. */
  function AfterFirst(first: seq<Call>): Bucket
    requires first != []
  {
    After(Full(first[0].capacity, first[0].now), first)
  }

  lemma OneDropLegit(first: seq<Call>, idle: real, tail: seq<Call>)
    requires first != [] && tail != [] && idle >= 0.0 && Monotone(first[0].now, first)
    requires var at := first[|first| - 1].now + idle; Monotone(at, tail)
    requires AfterFirst(first).last == first[|first| - 1].now
    ensures Legit(map[], first[0].now, idle, OneDrop(first, first[|first| - 1].now + idle, tail))
  {
    var at := first[|first| - 1].now + idle;
    var more := [Evicted("", at)] + AsEvents(tail);
    assert AsEvents(tail) + [] == AsEvents(tail);
    FreshLegit(at, idle, tail, []);
    assert more[0] == Evicted("", at) && more[1..] == AsEvents(tail);
    assert map["" := AfterFirst(first)] - {""} == map[];
    FreshLegit(first[0].now, idle, first, more);
  }

  lemma OneDropKept(first: seq<Call>, at: real, tail: seq<Call>)
    requires first != []
    ensures Answers(map[], OneDrop(first, at, tail), false)
            == Oks(Full(first[0].capacity, first[0].now), first) + Oks(AfterFirst(first), tail)
  {
    var more, m := [Evicted("", at)] + AsEvents(tail), map["" := AfterFirst(first)];
    FreshRun(first, more, false);
    assert more[0] == Evicted("", at) && more[1..] == AsEvents(tail) + [];
    ServeRun(m, tail, [], false);
    assert Oks(AfterFirst(first), tail) + [] == Oks(AfterFirst(first), tail);
  }

  lemma OneDropRenewed(first: seq<Call>, at: real, tail: seq<Call>)
    requires first != [] && tail != []
    ensures Answers(map[], OneDrop(first, at, tail), true)
            == Oks(Full(first[0].capacity, first[0].now), first) + Oks(Full(tail[0].capacity, tail[0].now), tail)
  {
    var more, m := [Evicted("", at)] + AsEvents(tail), map["" := AfterFirst(first)];
    FreshRun(first, more, true);
    assert more[0] == Evicted("", at) && more[1..] == AsEvents(tail) + [];
    assert m - {""} == map[];
    FreshRun(tail, [], true);
    var full := Full(tail[0].capacity, tail[0].now);
    assert Oks(full, tail) + [] == Oks(full, tail);
  }

  ghost predicate SameLimits(calls: seq<Call>, capacity: real, refill: real) {
    forall i :: 0 <= i < |calls| ==> calls[i].capacity == capacity && calls[i].refill == refill
  }

  /** If the second stretch lets different numbers through, the history tells the limiters apart. */
  lemma OneDropDiffers(first: seq<Call>, at: real, tail: seq<Call>)
    requires first != [] && tail != []
    requires Allowed(AfterFirst(first), tail) != Allowed(Full(tail[0].capacity, tail[0].now), tail)
    ensures Answers(map[], OneDrop(first, at, tail), false) != Answers(map[], OneDrop(first, at, tail), true)
  {
    OneDropKept(first, at, tail);
    OneDropRenewed(first, at, tail);
    var full := Full(tail[0].capacity, tail[0].now);
    SameOksSameAllowed(AfterFirst(first), full, tail);
    SplitAnswers(Oks(Full(first[0].capacity, first[0].now), first), Oks(AfterFirst(first), tail), Oks(full, tail));
  }

  ghost predicate CallsUnder(calls: seq<Call>, ls: set<Limits>) {
    forall i :: 0 <= i < |calls| ==> Under(calls[i], ls)
  }

  lemma OneDropUnder(first: seq<Call>, at: real, tail: seq<Call>, ls: set<Limits>)
    requires CallsUnder(first, ls) && CallsUnder(tail, ls)
    ensures UnderLimits(OneDrop(first, at, tail), ls)
  {
  }

  lemma Observed(ls: set<Limits>, idle: real, evs: seq<Event>, time: real)
    requires UnderLimits(evs, ls) && Legit(map[], time, idle, evs)
    requires Answers(map[], evs, false) != Answers(map[], evs, true)
    ensures !Unobservable(ls, idle)
  {
  }

  /** Two stretches of calls under the limits, an idle timeout apart, that a kept bucket and a fresh
      one serve differently. */
  lemma OneDropShows(first: seq<Call>, idle: real, tail: seq<Call>, ls: set<Limits>)
    requires first != [] && tail != [] && idle >= 0.0 && Monotone(first[0].now, first)
    requires Monotone(first[|first| - 1].now + idle, tail)
    requires AfterFirst(first).last == first[|first| - 1].now
    requires CallsUnder(first, ls) && CallsUnder(tail, ls)
    requires Allowed(AfterFirst(first), tail) != Allowed(Full(tail[0].capacity, tail[0].now), tail)
    ensures !Unobservable(ls, idle)
  {
    var at := first[|first| - 1].now + idle;
    OneDropLegit(first, idle, tail);
    OneDropDiffers(first, at, tail);
    OneDropUnder(first, at, tail, ls);
    Observed(ls, idle, OneDrop(first, at, tail), first[0].now);
  }

  lemma SplitAnswers(x: seq<bool>, y: seq<bool>, z: seq<bool>)
    ensures x + y == x + z ==> y == z
  {
    assert (x + y)[|x|..] == y && (x + z)[|x|..] == z;
  }

  lemma {:induction false} BurstFacts(c: Call, n: nat)
    ensures |Burst(c, n)| == n && forall i :: 0 <= i < n ==> Burst(c, n)[i] == c
    ensures forall time :: time <= c.now ==> Monotone(time, Burst(c, n))
    decreases n
  {
    if n > 0 { BurstFacts(c, n - 1); }
  }

  /** A burst from full, and one more call when the last token has just come back. */
  function BurstThenOne(capacity: real, refill: real, at: real, n: nat, later: real): seq<Call> {
    Burst(Call(capacity, refill, at), n) + [Call(capacity, refill, later)]
  }

  lemma {:induction false} BurstEarns(last: real, c: Call, n: nat, d: Call, refill: real)
    requires n >= 1 && last <= c.now <= d.now
    ensures Earned(last, Burst(c, n) + [d], refill) == (c.now - last) * refill + (d.now - c.now) * refill
    decreases n
  {
    var calls := Burst(c, n) + [d];
    assert calls[0] == c && calls[1..] == Burst(c, n - 1) + [d];
    if n == 1 {
      assert Burst(c, 0) + [d] == [d] && [d][1..] == [];
      assert Earned(c.now, [d], refill) == (d.now - c.now) * refill + Earned(d.now, [], refill);
    } else {
      BurstEarns(c.now, c, n - 1, d, refill);
      assert (c.now - c.now) * refill == 0.0;
    }
  }

  lemma LastCall(b: Bucket, c: Call, elapsed: real)
    requires c.now == b.last + elapsed && elapsed >= 0.0
    requires b.tokens + elapsed * c.refill == 1.0 && c.capacity >= 1.0
    ensures Allowed(b, [c]) == 1 && After(b, [c]) == Bucket(0.0, c.now)
  {
    assert Refilled(b, c) == 1.0;
    assert [c][1..] == [];
    assert Allowed(Bucket(0.0, c.now), []) == 0;
  }

  /** From full, all of the burst passes and so does the call after it, which leaves nothing. */
  lemma BurstThenOnePasses(capacity: real, refill: real, at: real, k: nat, wait: real)
    requires capacity >= 1.0 && k as real <= capacity && wait >= 0.0 && capacity - k as real + wait * refill == 1.0
    ensures var calls := BurstThenOne(capacity, refill, at, k, at + wait);
            && Allowed(Full(capacity, at), calls) == k + 1
            && After(Full(capacity, at), calls) == Bucket(0.0, at + wait)
  {
    var c, d := Call(capacity, refill, at), Call(capacity, refill, at + wait);
    BurstPasses(Full(capacity, at), c, k);
    RunConcat(Full(capacity, at), Burst(c, k), [d]);
    LastCall(Bucket(capacity - k as real, at), d, wait);
  }

  lemma {:induction false} WithinFixed(calls: seq<Call>, capacity: real, refill: real)
    requires capacity >= 0.0 && refill >= 0.0 && SameLimits(calls, capacity, refill)
    ensures Within(calls, capacity, refill)
    decreases |calls|
  {
    if calls != [] { WithinFixed(calls[1..], capacity, refill); }
  }

  lemma MonotoneBurst(time: real, c: Call, n: nat, d: Call)
    requires time <= c.now <= d.now
    ensures Monotone(time, Burst(c, n) + [d])
    decreases n
  {
    var calls := Burst(c, n) + [d];
    if n == 0 {
      assert calls[0] == d && calls[1..] == [];
    } else {
      assert calls[0] == c && calls[1..] == Burst(c, n - 1) + [d];
      MonotoneBurst(c.now, c, n - 1, d);
    }
  }

  lemma BurstThenOneShape(capacity: real, refill: real, at: real, k: nat, later: real)
    requires at <= later
    ensures var calls := BurstThenOne(capacity, refill, at, k, later);
            && |calls| == k + 1 && calls[k].now == later && (k > 0 ==> calls[0].now == at)
            && SameLimits(calls, capacity, refill) && Monotone(at, calls)
  {
    BurstFacts(Call(capacity, refill, at), k);
    MonotoneBurst(at, Call(capacity, refill, at), k, Call(capacity, refill, later));
  }

  lemma EmptyBound(last: real, calls: seq<Call>, capacity: real, refill: real)
    requires capacity >= 0.0 && refill >= 0.0 && SameLimits(calls, capacity, refill)
    ensures Allowed(Bucket(0.0, last), calls) as real <= Earned(last, calls, refill)
  {
    WithinFixed(calls, capacity, refill);
    Conservation(Bucket(0.0, last), calls, capacity, refill);
    TokensInRange(Bucket(0.0, last), calls, capacity, refill);
    ForgetLeft(Allowed(Bucket(0.0, last), calls), After(Bucket(0.0, last), calls).tokens, 0.0,
               Earned(last, calls, refill), 0.0);
  }

  /** A bucket left empty for an idle period too short to fill it turns one of these calls away. */
  lemma KeptFallsShort(capacity: real, refill: real, last: real, idle: real, k: nat, wait: real)
    requires capacity >= 1.0 && refill >= 0.0 && idle >= 0.0 && wait >= 0.0 && k >= 1
    requires capacity - k as real + wait * refill == 1.0 && idle * refill < capacity
    ensures Allowed(Bucket(0.0, last), BurstThenOne(capacity, refill, last + idle, k, last + idle + wait)) < k + 1
  {
    var calls := BurstThenOne(capacity, refill, last + idle, k, last + idle + wait);
    BurstThenOneShape(capacity, refill, last + idle, k, last + idle + wait);
    EmptyBound(last, calls, capacity, refill);
    var earned := KeptEarns(capacity, refill, last, idle, k, wait);
    FallsShort(Allowed(Bucket(0.0, last), calls), earned, k);
  }

  lemma KeptEarns(capacity: real, refill: real, last: real, idle: real, k: nat, wait: real) returns (earned: real)
    requires idle >= 0.0 && wait >= 0.0 && k >= 1
    requires capacity - k as real + wait * refill == 1.0 && idle * refill < capacity
    ensures earned == Earned(last, BurstThenOne(capacity, refill, last + idle, k, last + idle + wait), refill)
    ensures earned < k as real + 1.0
  {
    var c, d := Call(capacity, refill, last + idle), Call(capacity, refill, last + idle + wait);
    BurstEarns(last, c, k, d, refill);
    assert c.now - last == idle && d.now - c.now == wait;
    earned := idle * refill + wait * refill;
  }

  lemma FallsShort(allowed: nat, earned: real, k: nat)
    requires allowed as real <= earned < k as real + 1.0
    ensures allowed < k + 1
  {
  }

  /** The wait that brings back the fraction of a token a burst from full leaves missing. */
  lemma TopUp(capacity: real, refill: real) returns (k: nat, wait: real)
    requires capacity >= 1.0 && refill > 0.0
    ensures k >= 1 && k as real <= capacity && wait >= 0.0 && capacity - k as real + wait * refill == 1.0
  {
    k := capacity.Floor;
    wait := (1.0 - (capacity - k as real)) / refill;
  }

  lemma SameIsUnder(calls: seq<Call>, l: Limits, ls: set<Limits>)
    requires l in ls && SameLimits(calls, l.capacity, l.refill)
    ensures CallsUnder(calls, ls)
  {
  }

  lemma DropShowsWithRefill(l: Limits, ls: set<Limits>, idle: real)
    requires l in ls && l.capacity >= 1.0 && l.refill > 0.0 && idle >= 0.0 && idle * l.refill < l.capacity
    ensures !Unobservable(ls, idle)
  {
    var k, wait := TopUp(l.capacity, l.refill);
    var zero := 0.0;
    var first := BurstThenOne(l.capacity, l.refill, zero, k, zero + wait);
    var again := zero + wait + idle;
    var tail := BurstThenOne(l.capacity, l.refill, again, k, again + wait);
    BurstThenOneShape(l.capacity, l.refill, zero, k, zero + wait);
    BurstThenOneShape(l.capacity, l.refill, again, k, again + wait);
    BurstThenOnePasses(l.capacity, l.refill, zero, k, wait);
    BurstThenOnePasses(l.capacity, l.refill, again, k, wait);
    KeptFallsShort(l.capacity, l.refill, zero + wait, idle, k, wait);
    SameIsUnder(first, l, ls);
    SameIsUnder(tail, l, ls);
    OneDropShows(first, idle, tail, ls);
  }

  lemma DropShowsWithoutRefill(l: Limits, ls: set<Limits>, idle: real)
    requires l in ls && l.capacity >= 1.0 && l.refill == 0.0 && idle >= 0.0
    ensures !Unobservable(ls, idle)
  {
    var zero, k := 0.0, l.capacity.Floor;
    var c, d := Call(l.capacity, zero, zero), Call(l.capacity, zero, idle);
    BurstFacts(c, k);
    BurstPasses(Full(l.capacity, zero), c, k);
    assert Burst(c, k)[0] == c;
    assert !Step(Bucket(l.capacity - k as real, zero), d, 1.0).0;
    assert Step(Full(l.capacity, idle), d, 1.0).0;
    assert [d][1..] == [];
    OneDropShows(Burst(c, k), idle, [d], ls);
  }

  /** One call under limits that never allow any, and one under limits that allow it when the first
      bucket was full. */
  function TwoCalls(small: Limits, large: Limits, at: real, wait: real): seq<Call> {
    [Call(small.capacity, small.refill, at), Call(large.capacity, large.refill, at + wait)]
  }

  lemma SmallCall(b: Bucket, small: Limits, at: real)
    requires small.capacity < 1.0
    ensures var step := Step(b, Call(small.capacity, small.refill, at), 1.0);
            !step.0 && step.1 == Bucket(Refilled(b, Call(small.capacity, small.refill, at)), at)
  {
  }

  lemma LargeCall(b: Bucket, large: Limits, wait: real)
    requires large.capacity >= 1.0 && wait >= 0.0
    ensures Step(b, Call(large.capacity, large.refill, b.last + wait), 1.0).0 <==> b.tokens + wait * large.refill >= 1.0
  {
  }

  lemma TwoCallsAllow(b: Bucket, small: Limits, large: Limits, at: real, wait: real)
    requires small.capacity < 1.0 && large.capacity >= 1.0 && wait >= 0.0
    ensures var left := Refilled(b, Call(small.capacity, small.refill, at));
            Allowed(b, TwoCalls(small, large, at, wait)) == if left + wait * large.refill >= 1.0 then 1 else 0
  {
    var calls := TwoCalls(small, large, at, wait);
    SmallCall(b, small, at);
    var next := Step(b, calls[0], 1.0).1;
    LargeCall(next, large, wait);
    assert calls[1..] == [calls[1]] && [calls[1]][1..] == [];
    assert Allowed(Step(next, calls[1], 1.0).1, []) == 0;
  }

  lemma EmptyRefills(last: real, small: Limits, idle: real)
    requires small.refill >= 0.0 && idle >= 0.0 && idle * small.refill < small.capacity
    ensures Refilled(Bucket(0.0, last), Call(small.capacity, small.refill, last + idle)) == idle * small.refill
  {
    assert last + idle - last == idle;
  }

  lemma FullStays(small: Limits, at: real)
    ensures Refilled(Full(small.capacity, at), Call(small.capacity, small.refill, at)) == small.capacity
  {
    assert 0.0 * small.refill == 0.0;
  }

  /** The wait that brings a full small bucket to one token. */
  lemma FillUp(small: Limits, large: Limits) returns (wait: real)
    requires small.capacity < 1.0 && large.refill > 0.0
    ensures wait >= 0.0 && small.capacity + wait * large.refill == 1.0
  {
    wait := (1.0 - small.capacity) / large.refill;
  }

  lemma SmallDiffers(last: real, small: Limits, large: Limits, idle: real, wait: real)
    requires small.capacity < 1.0 && small.refill >= 0.0 && large.capacity >= 1.0 && idle >= 0.0 && wait >= 0.0
    requires idle * small.refill < small.capacity && small.capacity + wait * large.refill == 1.0
    ensures var calls := TwoCalls(small, large, last + idle, wait);
            Allowed(Bucket(0.0, last), calls) == 0 && Allowed(Full(small.capacity, last + idle), calls) == 1
  {
    TwoCallsAllow(Bucket(0.0, last), small, large, last + idle, wait);
    TwoCallsAllow(Full(small.capacity, last + idle), small, large, last + idle, wait);
    EmptyRefills(last, small, idle);
    FullStays(small, last + idle);
  }

  /** Limits that never allow a call show the drop to limits that do. */
  lemma DropShowsToLarge(small: Limits, large: Limits, ls: set<Limits>, idle: real)
    requires small in ls && large in ls && small.capacity < 1.0 && small.refill >= 0.0
    requires large.capacity >= 1.0 && large.refill > 0.0 && idle >= 0.0 && idle * small.refill < small.capacity
    ensures !Unobservable(ls, idle)
  {
    var k, top := TopUp(large.capacity, large.refill);
    var wait := FillUp(small, large);
    var zero := 0.0;
    var first := BurstThenOne(large.capacity, large.refill, zero, k, zero + top);
    var tail := TwoCalls(small, large, zero + top + idle, wait);
    BurstThenOneShape(large.capacity, large.refill, zero, k, zero + top);
    BurstThenOnePasses(large.capacity, large.refill, zero, k, top);
    SmallDiffers(zero + top, small, large, idle, wait);
    SameIsUnder(first, large, ls);
    TwoCallsShape(small, large, zero + top + idle, wait, ls);
    OneDropShows(first, idle, tail, ls);
  }

  lemma TwoCallsShape(small: Limits, large: Limits, at: real, wait: real, ls: set<Limits>)
    requires small in ls && large in ls && wait >= 0.0
    ensures var calls := TwoCalls(small, large, at, wait);
            CallsUnder(calls, ls) && Monotone(at, calls) && calls[0] == Call(small.capacity, small.refill, at)
  {
    var calls := TwoCalls(small, large, at, wait);
    assert calls[1..] == [calls[1]] && [calls[1]][1..] == [];
  }

  lemma NeverObserved(ls: set<Limits>, idle: real)
    requires idle >= 0.0 && (forall l :: l in ls ==> l.capacity >= 0.0 && l.refill >= 0.0)
    requires AllTiny(ls) || AllRefill(ls, idle)
    ensures Unobservable(ls, idle)
  {
    forall evs: seq<Event>, time: real | UnderLimits(evs, ls) && Legit(map[], time, idle, evs)
      ensures Answers(map[], evs, false) == Answers(map[], evs, true)
    {
      if AllTiny(ls) {
        TinyCapacityDenies(map[], evs, ls, false);
        TinyCapacityDenies(map[], evs, ls, true);
      } else {
        forall i | 0 <= i < |evs| && evs[i].Check? ensures Refills(idle, evs[i].call) {
          assert Under(evs[i].call, ls);
        }
        EvictionUnobservable(map[], map[], time, idle, evs);
      }
    }
  }

  lemma SomeObserved(l: Limits, ls: set<Limits>, idle: real)
    requires l in ls && idle >= 0.0 && l.capacity >= 1.0 && l.refill >= 0.0 && idle * l.refill < l.capacity
    ensures !Unobservable(ls, idle)
  {
    if l.refill > 0.0 { DropShowsWithRefill(l, ls, idle); } else { DropShowsWithoutRefill(l, ls, idle); }
  }

  /** Whatever limits the calls choose from, idle eviction cannot be observed exactly when the idle
      timeout refills a whole bucket under all of them, or none of them can ever allow a call. */
  lemma EvictionUnobservableIff(ls: set<Limits>, idle: real)
    requires idle >= 0.0 && forall l :: l in ls ==> l.capacity >= 0.0 && l.refill >= 0.0
    ensures Unobservable(ls, idle) <==> AllTiny(ls) || AllRefill(ls, idle)
  {
    if AllTiny(ls) || AllRefill(ls, idle) {
      NeverObserved(ls, idle);
    } else {
      var large :| large in ls && large.capacity >= 1.0;
      var small :| small in ls && idle * small.refill < small.capacity;
      if small.capacity >= 1.0 {
        SomeObserved(small, ls, idle);
      } else if idle * large.refill < large.capacity {
        SomeObserved(large, ls, idle);
      } else {
        PositiveFactor(large.refill, idle);
        DropShowsToLarge(small, large, ls, idle);
      }
    }
  }

  /** Limits that are safe one by one need not be safe together. */
  lemma SafeAloneNotTogether()
    ensures var (a, b) := (Limits(1.0, 1.0), Limits(0.5, 0.25));
            Unobservable({a}, 1.0) && Unobservable({b}, 1.0) && !Unobservable({a, b}, 1.0)
  {
    var a, b := Limits(1.0, 1.0), Limits(0.5, 0.25);
    EvictionUnobservableIff({a}, 1.0);
    EvictionUnobservableIff({b}, 1.0);
    EvictionUnobservableIff({a, b}, 1.0);
    assert a in {a, b} && b in {a, b};
  }
}
