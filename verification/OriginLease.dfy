/** The origin lease loop of `NetworkManager::request` in zoeken/zoeken-network/src/lib.rs. What
    storage, the network and the clock answer is a parameter, one answer a round; `rounds` bounds
    how far a run has got, so every statement covers every run and every prefix of one. */
module OriginLease {
  import opened Wrappers

  datatype Decision = Granted | RateLimited | ConcurrencyLimited

  /** `acquire_origin`. */
  datatype Acquired = AcquireFailed | Permit(decision: Decision, lease: bool, retryAfter: nat)

  /** `renew_origin`. */
  datatype Renewal = Renewed | Lost | RenewFailed

  datatype Outcome = Response(id: nat) | TooManyRequests(retryAfter: Option<nat>) | OtherError(id: nat)

  /** What a round of the running request brings: a renewal tick, or the end. */
  datatype Round = Tick(renewal: Renewal) | Done(outcome: Outcome)

  datatype World = World(acquire: nat -> Acquired, clock: nat -> nat, round: nat -> Round,
                         deferOk: bool, releaseOk: bool, direct: Outcome)

  datatype Reply = Network(outcome: Outcome) | CoordinationUnavailable | QueueExpired

  /** Everything the request does that storage, the network or the clock can see. */
  datatype Event =
    | Asked(permit: Acquired)
    | Slept(at: nat, pause: nat)
    | Expired(at: nat)
    | Sent
    | Renewing(renewal: Renewal)
    | Finished(outcome: Outcome)
    | Deferred(delay: nat, ok: bool)
    | Released(ok: bool)

  predicate IsGrant(e: Event) { e.Asked? && e.permit.Permit? && e.permit.decision.Granted? && e.permit.lease }

  predicate IsWait(e: Event) { e.Asked? && e.permit.Permit? && !e.permit.decision.Granted? }

  /** Storage let the request down. */
  predicate IsFault(e: Event) {
    match e
    case Asked(_) => !IsGrant(e) && !IsWait(e)
    case Renewing(r) => !r.Renewed?
    case Deferred(_, ok) => !ok
    case Released(ok) => !ok
    case _ => false
  }

  // ----- waiting for the lease -----

  datatype Waited = Lease | Fault | OutOfTime | StillWaiting

  /** A clock that honours sleeps, and a storage that never answers "wait no time at all". */
  ghost predicate Punctual(w: World, deadline: nat) {
    forall n: nat :: var p := w.acquire(n);
      p.Permit? && !p.decision.Granted? && w.clock(n + 1) < deadline ==>
        p.retryAfter >= 1 && w.clock(n + 2) >= w.clock(n + 1) + Min(p.retryAfter, deadline - w.clock(n + 1))
  }

  /** Storage tells the request to wait. */
  predicate SaysWait(permit: Acquired) { permit.Permit? && !permit.decision.Granted? }

  /** Round `k` of waiting: storage says to wait, the deadline has not come, and the request asks and
      sleeps as long as it is told to or until the deadline. */
  ghost predicate WaitedIn(w: World, deadline: nat, k: nat, trace: seq<Event>)
    requires 2 * k + 1 < |trace|
  {
    var permit, now := w.acquire(k), w.clock(k + 1);
    && SaysWait(permit) && now < deadline
    && trace[2 * k] == Asked(permit) && trace[2 * k + 1] == Slept(now, Min(permit.retryAfter, deadline - now))
  }

  /** The first `n` rounds of waiting. */
  ghost predicate WaitedFor(w: World, deadline: nat, n: nat, trace: seq<Event>) {
    2 * n <= |trace| && forall k :: 0 <= k < n ==> WaitedIn(w, deadline, k, trace)
  }

  /** What the waiting makes of the permit that ends it, at the clock reading that follows. */
  predicate Settles(permit: Acquired, now: nat, deadline: nat, r: Waited, tail: seq<Event>) {
    match r
    case Lease => permit.Permit? && permit.decision.Granted? && permit.lease && tail == [Asked(permit)]
    case Fault => !SaysWait(permit) && (permit.Permit? ==> !permit.lease) && tail == [Asked(permit)]
    case OutOfTime => SaysWait(permit) && now >= deadline && tail == [Asked(permit), Expired(now)]
    case StillWaiting => tail == []
  }

  /** How waiting ends after `n` rounds. */
  ghost predicate WaitEnds(w: World, deadline: nat, n: nat, r: Waited, trace: seq<Event>) {
    WaitedFor(w, deadline, n, trace) && Settles(w.acquire(n), w.clock(n + 1), deadline, r, trace[2 * n..])
  }

  lemma WaitedLonger(w: World, deadline: nat, n: nat, trace: seq<Event>, more: seq<Event>)
    requires WaitedFor(w, deadline, n, trace)
    ensures WaitedFor(w, deadline, n, trace + more)
  {
    forall k | 0 <= k < n ensures WaitedIn(w, deadline, k, trace + more) {
      assert WaitedIn(w, deadline, k, trace);
    }
  }

  /** Ask, and sleep while storage says to wait. With a punctual clock the wait ends. */
  method WaitForLease(w: World, deadline: nat, rounds: nat) returns (r: Waited, trace: seq<Event>, ghost n: nat)
    ensures WaitEnds(w, deadline, n, r, trace) && n <= rounds && (r.StillWaiting? <==> n == rounds)
    ensures Punctual(w, deadline) && rounds > 0 && w.clock(1) + rounds > deadline ==> !r.StillWaiting?
  {
    trace := [];
    var round := 0;
    n := 0;
    while round < rounds
      invariant n == round <= rounds && |trace| == 2 * n && WaitedFor(w, deadline, n, trace)
      invariant Punctual(w, deadline) && n > 0 ==>
                  w.clock(1) + n <= deadline && w.clock(n + 1) >= Min(w.clock(1) + n, deadline)
    {
      var permit := w.acquire(round);
      ghost var before := trace;
      trace := trace + [Asked(permit)];
      WaitedLonger(w, deadline, n, before, [Asked(permit)]);
      match permit
      case AcquireFailed =>
        return Fault, trace, n;
      case Permit(decision, lease, retryAfter) =>
        if decision.Granted? {
          return if lease then Lease else Fault, trace, n;
        }
        var now := w.clock(round + 1);
        if now >= deadline {
          WaitedLonger(w, deadline, n, trace, [Expired(now)]);
          return OutOfTime, trace + [Expired(now)], n;
        }
        trace := trace + [Slept(now, Min(retryAfter, deadline - now))];
        WaitedLonger(w, deadline, n, before, trace[2 * n..]);
        assert trace == before + trace[2 * n..];
        assert WaitedIn(w, deadline, n, trace);
        round, n := round + 1, n + 1;
    }
    return StillWaiting, trace, n;
  }

  // ----- running under the lease -----

  /** The first `n` rounds under the lease renewed it. */
  ghost predicate HeldFor(w: World, n: nat, trace: seq<Event>) {
    && |trace| > n && trace[0] == Sent
    && (forall k :: 0 <= k < n ==> w.round(k) == Tick(Renewed))
    && (forall i :: 0 < i <= n ==> trace[i] == Renewing(Renewed))
  }

  /** What a request does once the network has answered `outcome`, and what it replies. */
  predicate Closing(w: World, outcome: Outcome, r: Reply, tail: seq<Event>) {
    if outcome.TooManyRequests? && outcome.retryAfter.Some? then
      && tail == [Finished(outcome), Deferred(outcome.retryAfter.value, w.deferOk), Released(w.releaseOk)]
      && r == if w.deferOk && w.releaseOk then Network(outcome) else CoordinationUnavailable
    else
      && tail == [Finished(outcome), Released(w.releaseOk)]
      && r == if w.releaseOk then Network(outcome) else CoordinationUnavailable
  }

  /** How a run under the lease ends after `n` renewals: with the answer of the network in that round,
      or with a renewal that failed. */
  ghost predicate HoldEnds(w: World, n: nat, r: Reply, trace: seq<Event>) {
    && HeldFor(w, n, trace)
    && match w.round(n)
       case Done(outcome) => Closing(w, outcome, r, trace[n + 1..])
       case Tick(renewal) =>
         && renewal != Renewed && r == CoordinationUnavailable
         && trace[n + 1..] == [Renewing(renewal), Released(w.releaseOk)]
  }

  /** The run so far, or how it ended. */
  ghost predicate Held(w: World, n: nat, r: Option<Reply>, trace: seq<Event>) {
    if r.None? then HeldFor(w, n, trace) && |trace| == n + 1 else HoldEnds(w, n, r.value, trace)
  }

  /** Race the request against renewals. */
  method RunUnderLease(w: World, rounds: nat) returns (r: Option<Reply>, trace: seq<Event>, ghost n: nat)
    ensures Held(w, n, r, trace) && n <= rounds && (r.None? <==> n == rounds)
  {
    trace := [Sent];
    var round := 0;
    n := 0;
    while round < rounds
      invariant n == round <= rounds && |trace| == n + 1 && HeldFor(w, n, trace)
    {
      match w.round(round)
      case Done(outcome) =>
        var reply, tail := Finish(w, outcome);
        assert (trace + tail)[n + 1..] == tail;
        return Some(reply), trace + tail, n;
      case Tick(renewal) =>
        if !renewal.Renewed? {
          ghost var before := trace;
          trace := trace + [Renewing(renewal), Released(w.releaseOk)];
          assert trace[n + 1..] == [Renewing(renewal), Released(w.releaseOk)];
          return Some(CoordinationUnavailable), trace, n;
        }
        trace := trace + [Renewing(renewal)];
        round, n := round + 1, n + 1;
    }
    return None, trace, n;
  }

  /** What happens once the network has answered. */
  method Finish(w: World, outcome: Outcome) returns (r: Reply, tail: seq<Event>)
    ensures Closing(w, outcome, r, tail)
  {
    tail := [Finished(outcome)];
    if outcome.TooManyRequests? && outcome.retryAfter.Some? {
      tail := tail + [Deferred(outcome.retryAfter.value, w.deferOk)];
      if !w.deferOk {
        return CoordinationUnavailable, tail + [Released(w.releaseOk)];
      }
    }
    tail := tail + [Released(w.releaseOk)];
    if !w.releaseOk { return CoordinationUnavailable, tail; }
    return Network(outcome), tail;
  }

  // ----- what waiting and holding keep to -----

  /** While it waits, a request only asks and sleeps, and no sleep reaches past the deadline. */
  predicate WaitTrace(trace: seq<Event>, deadline: nat) {
    forall i :: 0 <= i < |trace| ==> Waits(trace[i], deadline)
  }

  predicate Waits(e: Event, deadline: nat) {
    IsWait(e) || (e.Slept? && e.at < deadline && e.at + e.pause <= deadline)
  }

  lemma WaitKept(w: World, deadline: nat, n: nat, trace: seq<Event>)
    requires WaitedFor(w, deadline, n, trace)
    ensures WaitTrace(trace[..2 * n], deadline)
  {
    forall i | 0 <= i < 2 * n ensures Waits(trace[i], deadline) {
      assert WaitedIn(w, deadline, i / 2, trace);
      assert i == 2 * (i / 2) || i == 2 * (i / 2) + 1;
    }
  }

  /** A run under a lease: it renews, finishes, defers when told to, and releases last. */
  ghost predicate HoldTrace(trace: seq<Event>) {
    && |trace| > 0 && trace[0].Sent?
    && (forall i :: 0 < i < |trace| ==> !trace[i].Sent? && !trace[i].Asked? && !trace[i].Slept? && !trace[i].Expired?)
    && (forall i :: 0 <= i < |trace| && trace[i].Released? ==> i == |trace| - 1)
    && DefersWhenTold(trace)
  }

  predicate IsToldToDefer(e: Event) { e.Finished? && e.outcome.TooManyRequests? && e.outcome.retryAfter.Some? }

  /** The server's back-off is passed on to storage exactly when there is one. */
  ghost predicate DefersWhenTold(trace: seq<Event>) {
    && (forall i :: 0 <= i < |trace| && trace[i].Deferred? ==>
          i > 0 && trace[i - 1] == Finished(TooManyRequests(Some(trace[i].delay))))
    && (forall i :: 0 <= i < |trace| && IsToldToDefer(trace[i]) ==> i + 1 < |trace| && trace[i + 1].Deferred?)
  }

  lemma HoldKept(w: World, n: nat, r: Option<Reply>, trace: seq<Event>)
    requires Held(w, n, r, trace)
    ensures HoldTrace(trace)
    ensures r.Some? <==> trace[|trace| - 1].Released?
    ensures r.None? ==> forall i :: 0 <= i < |trace| ==> !trace[i].Released?
    ensures r.Some? ==> (Faulty(trace) <==> r.value.CoordinationUnavailable?) && !r.value.QueueExpired?
    ensures r.Some? && r.value.Network? ==> Finished(r.value.outcome) in trace
  {
    var tail := trace[n + 1..];
    assert forall i :: n < i < |trace| ==> trace[i] == tail[i - n - 1];
    assert |tail| > 0 ==> trace[n + 1] == tail[0];
    assert |tail| > 1 ==> trace[n + 2] == tail[1];
    assert |tail| > 2 ==> trace[n + 3] == tail[2];
  }

  // ----- the whole request -----

  /** Asking for the lease, or waiting for it. */
  predicate IsQueueing(e: Event) { e.Asked? || e.Slept? || e.Expired? }

  /** Under a coordinator the request touches the network only between a grant and the release. */
  ghost predicate LeaseProtocol(trace: seq<Event>) {
    && (forall i, j :: 0 <= i < |trace| && 0 <= j < |trace| && IsGrant(trace[i]) && IsGrant(trace[j]) ==> i == j)
    && (forall i :: 0 <= i < |trace| && !IsQueueing(trace[i]) ==> GrantBefore(trace, i))
    && (forall i :: 0 <= i < |trace| && trace[i].Released? ==> i == |trace| - 1)
    && (forall i :: 0 <= i < |trace| && GrantBefore(trace, i) ==> !IsQueueing(trace[i]))
  }

  ghost predicate GrantBefore(trace: seq<Event>, i: int)
    requires i <= |trace|
  {
    exists j :: 0 <= j < i && IsGrant(trace[j])
  }

  predicate SleepsInside(e: Event, deadline: nat) { e.Slept? ==> e.at < deadline && e.at + e.pause <= deadline }

  ghost predicate SleepsInTime(trace: seq<Event>, deadline: nat) {
    forall i :: 0 <= i < |trace| ==> SleepsInside(trace[i], deadline)
  }

  ghost predicate Faulty(trace: seq<Event>) {
    exists i :: 0 <= i < |trace| && IsFault(trace[i])
  }

  /** A whole run under a lease: waiting up to the grant at `g`, then holding. */
  ghost predicate Joined(t: seq<Event>, g: nat, hold: seq<Event>, deadline: nat) {
    && |t| == g + 1 + |hold| && WaitTrace(t[..g], deadline) && IsGrant(t[g]) && HoldTrace(hold)
    && (forall i :: 0 <= i < g ==> t[i] == t[..g][i])
    && (forall i :: g < i < |t| ==> t[i] == hold[i - g - 1])
  }

  lemma JoinedProtocol(t: seq<Event>, g: nat, hold: seq<Event>, deadline: nat)
    requires Joined(t, g, hold, deadline)
    ensures LeaseProtocol(t) && GrantBefore(t, |t|)
  {
    forall i | 0 <= i < g ensures !IsGrant(t[i]) && (t[i].Asked? || t[i].Slept?) {
      assert IsWait(t[..g][i]) || t[..g][i].Slept?;
    }
  }

  lemma JoinedDefers(t: seq<Event>, g: nat, hold: seq<Event>, deadline: nat)
    requires Joined(t, g, hold, deadline)
    ensures DefersWhenTold(t)
  {
    forall i | 0 <= i <= g ensures t[i].Asked? || t[i].Slept? {
      assert i < g ==> IsWait(t[..g][i]) || t[..g][i].Slept?;
    }
    forall i | g < i < |t| && IsToldToDefer(t[i]) ensures i + 1 < |t| && t[i + 1].Deferred? {
      assert t[i] == hold[i - g - 1];
      assert hold[i - g].Deferred?;
    }
  }

  lemma JoinedWaits(t: seq<Event>, g: nat, hold: seq<Event>, deadline: nat)
    requires Joined(t, g, hold, deadline)
    ensures SleepsInTime(t, deadline) && (Faulty(t) <==> Faulty(hold))
  {
    forall i | 0 <= i < g ensures !IsFault(t[i]) && SleepsInside(t[i], deadline) {
      assert IsWait(t[..g][i]) || t[..g][i].Slept?;
    }
    if Faulty(hold) {
      var i :| 0 <= i < |hold| && IsFault(hold[i]);
      assert IsFault(t[g + 1 + i]);
    }
  }

  lemma Compose(wait: seq<Event>, hold: seq<Event>, deadline: nat)
    requires |wait| > 0 && WaitTrace(wait[..|wait| - 1], deadline) && IsGrant(wait[|wait| - 1]) && HoldTrace(hold)
    ensures LeaseProtocol(wait + hold) && DefersWhenTold(wait + hold) && SleepsInTime(wait + hold, deadline)
    ensures GrantBefore(wait + hold, |wait + hold|)
    ensures Faulty(wait + hold) <==> Faulty(hold)
  {
    var t, g := wait + hold, |wait| - 1;
    assert t[..g] == wait[..g];
    JoinedProtocol(t, g, hold, deadline);
    JoinedDefers(t, g, hold, deadline);
    JoinedWaits(t, g, hold, deadline);
  }

  datatype Setup = Setup(favicon: bool, coordinated: bool, originKnown: bool, waitLimit: nat)

  /** No coordinator, or a favicon: straight to the network. */
  predicate Bypasses(c: Setup) { c.favicon || !c.coordinated }

  /** The course of a whole run: `m` rounds of waiting, and if they end in a grant, `n` renewals. */
  ghost predicate Course(w: World, deadline: nat, m: nat, n: nat, r: Option<Reply>, trace: seq<Event>) {
    WaitedFor(w, deadline, m, trace) && exists waited, k: nat :: CourseFrom(w, deadline, m, n, waited, k, r, trace)
  }

  /** After the rounds of waiting: how they end, and from event `k` on what the lease is held for. */
  ghost predicate CourseFrom(w: World, deadline: nat, m: nat, n: nat, waited: Waited, k: nat, r: Option<Reply>,
                             trace: seq<Event>)
  {
    && 2 * m <= k <= |trace| && Settles(w.acquire(m), w.clock(m + 1), deadline, waited, trace[2 * m..k])
    && (if waited.Lease? then Held(w, n, r, trace[k..]) else k == |trace| && r == ReplyWithout(waited))
  }

  /** The reply of a request that did not get the lease. */
  function ReplyWithout(waited: Waited): Option<Reply>
    requires !waited.Lease?
  {
    match waited
    case Fault => Some(CoordinationUnavailable)
    case OutOfTime => Some(QueueExpired)
    case StillWaiting => None
  }

  lemma CourseOf(w: World, deadline: nat, m: nat, n: nat, waited: Waited, r: Option<Reply>, wait: seq<Event>,
                 hold: seq<Event>)
    requires WaitEnds(w, deadline, m, waited, wait)
    requires if waited.Lease? then Held(w, n, r, hold) else hold == [] && r == ReplyWithout(waited)
    ensures Course(w, deadline, m, n, r, wait + hold)
  {
    var trace := wait + hold;
    WaitedLonger(w, deadline, m, wait, hold);
    assert trace[2 * m..|wait|] == wait[2 * m..] && trace[|wait|..] == hold;
    assert CourseFrom(w, deadline, m, n, waited, |wait|, r, trace);
  }

  /** A network answer is the one the network gave in the round that ended the request; every round
      before renewed the lease; and nothing else is recorded as an answer. */
  lemma AnswerIsTheNetworks(w: World, deadline: nat, m: nat, n: nat, r: Option<Reply>, trace: seq<Event>)
    requires Course(w, deadline, m, n, r, trace) && r.Some? && r.value.Network?
    ensures w.round(n) == Done(r.value.outcome) && (forall k :: 0 <= k < n ==> w.round(k) == Tick(Renewed))
    ensures forall i :: 0 <= i < |trace| && trace[i].Finished? ==> trace[i].outcome == r.value.outcome
  {
    var waited, k: nat :| CourseFrom(w, deadline, m, n, waited, k, r, trace);
    HoldAnswers(w, n, r, trace[k..]);
    WaitKept(w, deadline, m, trace);
    assert forall i :: 0 <= i < 2 * m ==> trace[i] == trace[..2 * m][i];
    assert forall i :: 2 * m <= i < k ==> trace[i] == trace[2 * m..k][i - 2 * m];
    assert forall i :: k <= i < |trace| ==> trace[i] == trace[k..][i - k];
  }

  lemma HoldAnswers(w: World, n: nat, r: Option<Reply>, hold: seq<Event>)
    requires Held(w, n, r, hold) && r.Some? && r.value.Network?
    ensures w.round(n) == Done(r.value.outcome) && (forall k :: 0 <= k < n ==> w.round(k) == Tick(Renewed))
    ensures forall i :: 0 <= i < |hold| && hold[i].Finished? ==> hold[i].outcome == r.value.outcome
  {
    assert forall i :: n < i < |hold| ==> hold[i] == hold[n + 1..][i - n - 1];
  }

  /** What a coordinated request keeps to on every run, finished or not. */
  ghost predicate Protocol(originKnown: bool, deadline: nat, r: Option<Reply>, trace: seq<Event>) {
    && LeaseProtocol(trace) && DefersWhenTold(trace) && SleepsInTime(trace, deadline)
    // exactly one release follows a grant on a run that returns, and none before it returns
    && (r.Some? ==> (GrantBefore(trace, |trace|) <==> |trace| > 0 && trace[|trace| - 1].Released?))
    && (r.None? ==> forall i :: 0 <= i < |trace| ==> !trace[i].Released?)
    // a network answer means that storage never failed; coordination is unavailable when it did
    && (r.Some? && r.value.Network? ==> Finished(r.value.outcome) in trace)
    && (r.Some? ==> (r.value.CoordinationUnavailable? <==> !originKnown || Faulty(trace)))
    // the queue expires only at the deadline and without a lease
    && (r == Some(QueueExpired) ==>
          && !GrantBefore(trace, |trace|)
          && |trace| > 0 && trace[|trace| - 1].Expired? && trace[|trace| - 1].at >= deadline)
  }

  lemma LeaseKept(w: World, deadline: nat, m: nat, n: nat, r: Option<Reply>, wait: seq<Event>, hold: seq<Event>)
    requires WaitEnds(w, deadline, m, Lease, wait) && Held(w, n, r, hold)
    ensures Protocol(true, deadline, r, wait + hold)
  {
    WaitKept(w, deadline, m, wait);
    assert wait == wait[..2 * m] + wait[2 * m..];
    assert wait[..|wait| - 1] == wait[..2 * m] && wait[|wait| - 1] == wait[2 * m..][0];
    HoldKept(w, n, r, hold);
    Compose(wait, hold, deadline);
    Joining(r, wait, hold, deadline);
  }

  lemma Joining(r: Option<Reply>, wait: seq<Event>, hold: seq<Event>, deadline: nat)
    requires |wait| > 0 && WaitTrace(wait[..|wait| - 1], deadline) && IsGrant(wait[|wait| - 1]) && |hold| > 0
    ensures (wait + hold)[|wait + hold| - 1] == hold[|hold| - 1]
    ensures (forall i :: 0 <= i < |hold| ==> !hold[i].Released?) ==>
              forall i :: 0 <= i < |wait + hold| ==> !(wait + hold)[i].Released?
    ensures forall e :: e in hold ==> e in wait + hold
  {
    forall i | 0 <= i < |wait| ensures !wait[i].Released? {
      assert i < |wait| - 1 ==> wait[..|wait| - 1][i] == wait[i];
    }
  }

  lemma WaitingKept(w: World, deadline: nat, m: nat, waited: Waited, wait: seq<Event>)
    requires WaitEnds(w, deadline, m, waited, wait) && !waited.Lease?
    ensures Protocol(true, deadline, ReplyWithout(waited), wait)
  {
    WaitKept(w, deadline, m, wait);
    assert wait == wait[..2 * m] + wait[2 * m..];
    if waited.StillWaiting? {
      assert wait == wait[..2 * m];
    } else if waited.OutOfTime? {
      assert wait[..|wait| - 2] == wait[..2 * m] && wait[|wait| - 2..] == wait[2 * m..];
    } else {
      assert wait[..|wait| - 1] == wait[..2 * m] && wait[|wait| - 1..] == wait[2 * m..];
    }
    WaitOnly(wait, deadline, waited);
  }

  /** The lease protocol on every run, finished or not. */
  method Request(w: World, c: Setup, rounds: nat)
    returns (r: Option<Reply>, trace: seq<Event>, ghost m: nat, ghost n: nat)
    ensures Bypasses(c) ==> r == Some(Network(w.direct)) && trace == [Sent, Finished(w.direct)]
    ensures !Bypasses(c) && !c.originKnown ==> r == Some(CoordinationUnavailable) && trace == []
    ensures !Bypasses(c) && c.originKnown ==> Course(w, w.clock(0) + c.waitLimit, m, n, r, trace)
    ensures !Bypasses(c) && c.originKnown && r.None? ==> m == rounds || n == rounds
    ensures !Bypasses(c) ==> Protocol(c.originKnown, w.clock(0) + c.waitLimit, r, trace)
  {
    m, n := 0, 0;
    if c.favicon || !c.coordinated {
      return Some(Network(w.direct)), [Sent, Finished(w.direct)], m, n;
    }
    if !c.originKnown {
      return Some(CoordinationUnavailable), [], m, n;
    }
    r, trace, m, n := WaitAndRun(w, w.clock(0) + c.waitLimit, rounds);
  }

  /** The part of it that has a coordinator and an origin. */
  method WaitAndRun(w: World, deadline: nat, rounds: nat)
    returns (r: Option<Reply>, trace: seq<Event>, ghost m: nat, ghost n: nat)
    ensures Course(w, deadline, m, n, r, trace) && (r.None? ==> m == rounds || n == rounds)
    ensures Protocol(true, deadline, r, trace)
  {
    var waited, wait;
    waited, wait, m := WaitForLease(w, deadline, rounds);
    n := 0;
    var hold: seq<Event> := [];
    if waited.Lease? {
      r, hold, n := RunUnderLease(w, rounds);
      LeaseKept(w, deadline, m, n, r, wait, hold);
    } else {
      r := ReplyWithout(waited);
      WaitingKept(w, deadline, m, waited, wait);
    }
    CourseOf(w, deadline, m, n, waited, r, wait, hold);
    trace := wait + hold;
    assert hold == [] ==> trace == wait;
  }

  /** A run that never got the lease: it waited, and ended in a fault, at the deadline, or not yet. */
  lemma WaitOnly(wait: seq<Event>, deadline: nat, waited: Waited)
    requires !waited.Lease?
    requires waited.StillWaiting? ==> WaitTrace(wait, deadline)
    requires waited.Fault? ==>
               |wait| > 0 && WaitTrace(wait[..|wait| - 1], deadline)
               && wait[|wait| - 1].Asked? && IsFault(wait[|wait| - 1])
    requires waited.OutOfTime? ==>
               |wait| > 1 && WaitTrace(wait[..|wait| - 2], deadline) && IsWait(wait[|wait| - 2])
               && wait[|wait| - 1].Expired? && wait[|wait| - 1].at >= deadline
    ensures Protocol(true, deadline, ReplyWithout(waited), wait)
  {
    var n := if waited.StillWaiting? then |wait| else if waited.Fault? then |wait| - 1 else |wait| - 2;
    forall i | 0 <= i < n ensures IsWait(wait[i]) || (wait[i].Slept? && SleepsInside(wait[i], deadline)) {
      assert waited.Fault? ==> wait[..|wait| - 1][i] == wait[i];
      assert waited.OutOfTime? ==> wait[..|wait| - 2][i] == wait[i];
    }
    assert forall i :: 0 <= i < |wait| ==> !IsGrant(wait[i]) && IsQueueing(wait[i]);
    if waited.Fault? { assert IsFault(wait[|wait| - 1]); }
  }
}
