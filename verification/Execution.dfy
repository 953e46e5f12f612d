/** The concurrent engine run of zoeken/zoeken-search/src/execution.rs. Engine tasks may join in any
    order and any of them may fail to join; the report is drained in selection order. */
module Execution {
  import opened Ordering
  import opened Wrappers

  datatype Reason = EngineTimeout | GlobalDeadline

  datatype Status = Completed(results: int) | Failed(error: int) | Unresponsive(reason: Reason)

  datatype Outcome = Outcome(engine: string, status: Status, duration: nat, httpDuration: Option<nat>)

  function Lost(engine: string): Outcome { Outcome(engine, Unresponsive(GlobalDeadline), 0, None) }

  // ----- one engine -----

  /** What the engine would do if it were left alone. */
  datatype Work = Work(duration: nat, status: Status, httpDuration: Option<nat>)

  /** `cutAtTie`: the timer wins when the engine answers at the very end of its budget. */
  function RunOne(name: string, timeout: nat, deadline: int, now: int, work: Work, cutAtTie: bool): Outcome {
    if deadline < now then Lost(name)
    else
      var remaining := deadline - now;
      if remaining == 0 then Lost(name)
      else
        var budget := Min(timeout, remaining);
        var blame := if timeout <= remaining then EngineTimeout else GlobalDeadline;
        if work.duration < budget || (work.duration == budget && !cutAtTie)
        then Outcome(name, work.status, work.duration, work.httpDuration)
        else Outcome(name, Unresponsive(blame), budget, None)
  }

  /** An engine never outlives the global deadline. It is blamed for a timeout exactly when its own
      timeout cut it off, and otherwise answers within both limits. */
  lemma RunOneInTime(name: string, timeout: nat, deadline: int, now: int, work: Work, cutAtTie: bool)
    requires !work.status.Unresponsive?
    ensures var o := RunOne(name, timeout, deadline, now, work, cutAtTie);
            && o.engine == name
            && (now <= deadline ==> now + o.duration <= deadline) && (now > deadline ==> o.duration == 0)
            && (o.status == Unresponsive(EngineTimeout) <==>
                  now < deadline && now + timeout <= deadline
                  && (work.duration > timeout || (work.duration == timeout && cutAtTie)))
            && (!o.status.Unresponsive? ==>
                  o.status == work.status && o.duration == work.duration <= timeout && now + work.duration <= deadline)
  {
  }

  /** An engine that answers within both limits is reported exactly as it answered. Otherwise it is
      cut off at the tighter limit, and the global deadline is blamed exactly if it has passed already
      or is the tighter one. At the limit itself either may win. */
  lemma RunOneReports(name: string, timeout: nat, deadline: int, now: int, work: Work, cutAtTie: bool)
    requires !work.status.Unresponsive?
    ensures var (o, left) := (RunOne(name, timeout, deadline, now, work, cutAtTie), deadline - now);
            var inTime := && work.duration <= timeout && work.duration <= left
                          && ((work.duration < timeout && work.duration < left) || !cutAtTie);
            && (now < deadline && inTime ==>
                  o.engine == name && o.status == work.status && o.duration == work.duration
                  && o.httpDuration == work.httpDuration)
            && (now < deadline && !inTime ==>
                  o.status.Unresponsive? && o.duration == (if timeout <= left then timeout else left)
                  && o.httpDuration == None)
            && (now >= deadline ==> o.duration == 0 && o.httpDuration == None)
            && (o.status == Unresponsive(GlobalDeadline) <==> now >= deadline || (left < timeout && !inTime))
            && (o.status == Unresponsive(EngineTimeout) <==> now < deadline && timeout <= left && !inTime)
  {
  }

  // ----- joining and draining -----

  /** A join order of `n` tasks: each of them once. */
  ghost predicate JoinOrder(order: seq<nat>, n: nat) {
    && (forall k :: 0 <= k < |order| ==> order[k] < n)
    && (forall t :: 0 <= t < n ==> t in order)
    && (forall j, k :: 0 <= j < k < |order| ==> order[j] != order[k])
  }

  /** The engines of a run: their names in selection order, what each task yields, and which tasks
      join at all. */
  datatype Run = Run(selected: seq<string>, own: seq<Outcome>, joins: seq<bool>)

  ghost predicate WellFormed(r: Run) {
    && |r.own| == |r.joins| == |r.selected|
    && forall t :: 0 <= t < |r.own| ==> r.own[t].engine == r.selected[t]
  }

  /** The outcome stored under a name when the tasks of `order` have joined: the last one wins. */
  ghost function Stored(r: Run, order: seq<nat>, name: string): Option<Outcome>
    requires WellFormed(r) && forall k :: 0 <= k < |order| ==> order[k] < |r.own|
    decreases |order|
  {
    if order == [] then None
    else
      var t := order[|order| - 1];
      if r.joins[t] && r.selected[t] == name then Some(r.own[t]) else Stored(r, order[..|order| - 1], name)
  }

  /** The report's entry at position `i`. */
  ghost function Reported(r: Run, order: seq<nat>, i: nat): Outcome
    requires WellFormed(r) && JoinOrder(order, |r.own|) && i < |r.selected|
  {
    var name := r.selected[i];
    var stored := Stored(r, order, name);
    if name in r.selected[..i] || stored.None? then Lost(name) else stored.value
  }

  method JoinAll(r: Run, order: seq<nat>) returns (byName: map<string, Outcome>)
    requires WellFormed(r) && JoinOrder(order, |r.own|)
    ensures forall name :: name in byName <==> Stored(r, order, name).Some?
    ensures forall name :: name in byName ==> byName[name] == Stored(r, order, name).value
  {
    byName := map[];
    var k := 0;
    while k < |order|
      invariant 0 <= k <= |order|
      invariant forall name :: name in byName <==> Stored(r, order[..k], name).Some?
      invariant forall name :: name in byName ==> byName[name] == Stored(r, order[..k], name).value
    {
      var t := order[k];
      if r.joins[t] { byName := byName[r.own[t].engine := r.own[t]]; }
      assert order[..k + 1][..k] == order[..k];
      k := k + 1;
    }
    assert order[..k] == order;
  }

  /** What draining gives position `i`: the first engine of a name takes its entry. */
  function Taken(selected: seq<string>, all: map<string, Outcome>, i: nat): Outcome
    requires i < |selected|
  {
    if selected[i] in selected[..i] || selected[i] !in all then Lost(selected[i]) else all[selected[i]]
  }

  /** Every name takes its entry out of the map; a name that finds none is lost. */
  method Drain(selected: seq<string>, all: map<string, Outcome>) returns (outcomes: seq<Outcome>)
    ensures |outcomes| == |selected|
    ensures forall i :: 0 <= i < |outcomes| ==> outcomes[i] == Taken(selected, all, i)
  {
    var byName := all;
    ghost var gone: set<string> := {};
    outcomes := [];
    var i := 0;
    while i < |selected|
      invariant 0 <= i == |outcomes| <= |selected|
      invariant byName == all - gone
      invariant forall name :: name in gone <==> name in selected[..i]
      invariant forall k :: 0 <= k < i ==> outcomes[k] == Taken(selected, all, k)
    {
      var name := selected[i];
      outcomes := outcomes + [if name in byName then byName[name] else Lost(name)];
      assert outcomes[i] == Taken(selected, all, i);
      byName := byName - {name};
      gone := gone + {name};
      assert selected[..i + 1] == selected[..i] + [name];
      i := i + 1;
    }
  }

  /** One outcome for every selected engine, in selection order, whatever the join order. */
  method RunEngines(r: Run, order: seq<nat>) returns (outcomes: seq<Outcome>)
    requires WellFormed(r) && JoinOrder(order, |r.own|)
    ensures |outcomes| == |r.selected|
    ensures forall i :: 0 <= i < |outcomes| ==>
              outcomes[i] == Reported(r, order, i) && outcomes[i].engine == r.selected[i]
  {
    var byName := JoinAll(r, order);
    outcomes := Drain(r.selected, byName);
    StoredNames(r, order);
  }

  lemma {:induction false} StoredNames(r: Run, order: seq<nat>)
    requires WellFormed(r) && forall k :: 0 <= k < |order| ==> order[k] < |r.own|
    ensures forall name :: Stored(r, order, name).Some? ==> Stored(r, order, name).value.engine == name
    decreases |order|
  {
    if order != [] { StoredNames(r, order[..|order| - 1]); }
  }

  // ----- what the join order can change -----

  /** What is stored is the yield of a task that joined under the name. */
  lemma {:induction false} StoredFrom(r: Run, order: seq<nat>, name: string)
    requires WellFormed(r) && forall k :: 0 <= k < |order| ==> order[k] < |r.own|
    ensures Stored(r, order, name).Some? <==> exists t :: t in order && r.joins[t] && r.selected[t] == name
    ensures Stored(r, order, name).Some? ==>
              exists t :: t in order && r.joins[t] && r.selected[t] == name && Stored(r, order, name).value == r.own[t]
    decreases |order|
  {
    if order != [] {
      var init, t := order[..|order| - 1], order[|order| - 1];
      assert order == init + [t];
      StoredFrom(r, init, name);
      assert t in order && forall u :: u in order <==> u in init || u == t;
    }
  }

  /** An engine whose name no other position has gets its own outcome, or the deadline if its task
      was lost. A later engine of a name is reported lost even when its task finished. */
  lemma ReportByName(r: Run, order: seq<nat>, i: nat)
    requires WellFormed(r) && JoinOrder(order, |r.own|) && i < |r.selected|
    ensures (forall t :: 0 <= t < |r.selected| && r.selected[t] == r.selected[i] ==> t == i) ==>
              Reported(r, order, i) == if r.joins[i] then r.own[i] else Lost(r.selected[i])
    ensures r.selected[i] in r.selected[..i] ==> Reported(r, order, i) == Lost(r.selected[i])
  {
    StoredFrom(r, order, r.selected[i]);
    assert i in order;
  }

  /** Tasks that join under one name yield the same. */
  ghost predicate NamesAgree(r: Run)
    requires WellFormed(r)
  {
    forall t, u ::
      0 <= t < |r.own| && 0 <= u < |r.own| && r.joins[t] && r.joins[u] && r.selected[t] == r.selected[u] ==>
        r.own[t] == r.own[u]
  }

  ghost predicate SameReports(r: Run)
    requires WellFormed(r)
  {
    forall a, b, i :: JoinOrder(a, |r.own|) && JoinOrder(b, |r.own|) && 0 <= i < |r.selected| ==>
      Reported(r, a, i) == Reported(r, b, i)
  }

  /** Some join order ends with `t`. */
  lemma LastToJoin(n: nat, t: nat) returns (order: seq<nat>)
    requires t < n
    ensures JoinOrder(order, n) && |order| == n && order[n - 1] == t
  {
    order := seq(n, k requires 0 <= k < n => if k == n - 1 then t else if k < t then k else k + 1);
    forall u | 0 <= u < n ensures u in order {
      assert order[if u == t then n - 1 else if u < t then u else u - 1] == u;
    }
  }

  lemma LastIsStored(r: Run, order: seq<nat>, t: nat)
    requires WellFormed(r) && JoinOrder(order, |r.own|) && |order| > 0 && order[|order| - 1] == t && r.joins[t]
    ensures Stored(r, order, r.selected[t]) == Some(r.own[t])
  {
  }

  lemma FirstOf(r: Run, name: string) returns (i: nat)
    requires name in r.selected
    ensures i < |r.selected| && r.selected[i] == name && name !in r.selected[..i]
  {
    i := 0;
    while r.selected[i] != name
      invariant i < |r.selected| && name !in r.selected[..i]
      invariant exists k :: i <= k < |r.selected| && r.selected[k] == name
      decreases |r.selected| - i
    {
      assert r.selected[..i + 1] == r.selected[..i] + [r.selected[i]];
      i := i + 1;
    }
  }

  lemma AgreeingNames(r: Run, a: seq<nat>, b: seq<nat>, i: nat)
    requires WellFormed(r) && NamesAgree(r) && JoinOrder(a, |r.own|) && JoinOrder(b, |r.own|) && i < |r.selected|
    ensures Reported(r, a, i) == Reported(r, b, i)
  {
    StoredFrom(r, a, r.selected[i]);
    StoredFrom(r, b, r.selected[i]);
  }

  lemma SeparateReports(r: Run, t: nat, u: nat)
    requires WellFormed(r) && t < |r.own| && u < |r.own| && r.joins[t] && r.joins[u] && r.selected[t] == r.selected[u]
    requires SameReports(r)
    ensures r.own[t] == r.own[u]
  {
    var a := LastToJoin(|r.own|, t);
    var b := LastToJoin(|r.own|, u);
    LastIsStored(r, a, t);
    LastIsStored(r, b, u);
    var i := FirstOf(r, r.selected[t]);
    assert Reported(r, a, i) == Reported(r, b, i);
  }

  /** The report is the same for every join order exactly when tasks that join under one name yield
      the same: in particular when the selected names are distinct. */
  lemma JoinOrderIrrelevantIff(r: Run)
    requires WellFormed(r)
    ensures SameReports(r) <==> NamesAgree(r)
    ensures Distinct(r.selected) ==> SameReports(r)
  {
    if SameReports(r) {
      forall t, u | 0 <= t < |r.own| && 0 <= u < |r.own| && r.joins[t] && r.joins[u] && r.selected[t] == r.selected[u]
        ensures r.own[t] == r.own[u]
      {
        SeparateReports(r, t, u);
      }
    }
    if NamesAgree(r) {
      forall a, b, i | JoinOrder(a, |r.own|) && JoinOrder(b, |r.own|) && 0 <= i < |r.selected|
        ensures Reported(r, a, i) == Reported(r, b, i)
      {
        AgreeingNames(r, a, b, i);
      }
    }
    assert Distinct(r.selected) ==> NamesAgree(r);
  }
}
