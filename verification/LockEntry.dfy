/** When the favicon service of zoeken/zoeken-favicons/src/service.rs forgets to remove a lock from
    `in_flight`. */
module LockEntry {
  import opened SingleFlight

  /** The event removes the entry of `a`. */
  predicate IsRemoval(s: State, ev: Event, a: string) {
    ev.Act? && ev.action == Remove && ev.task < |s.tasks| && s.tasks[ev.task].authority == a
  }

  /** A task of `a` has missed in its lookup and not yet asked for the lock. */
  predicate AtRegister(s: State, a: string) {
    exists t :: 0 <= t < |s.tasks| && s.tasks[t].authority == a && s.tasks[t].pc.Register?
  }

  /** At some removal of the entry of `a`, a task of `a` had yet to ask for the lock. */
  predicate LateAtRemoval(s: State, evs: seq<Event>, a: string)
    requires Runs(s, evs)
    decreases |evs|
  {
    evs != [] && ((IsRemoval(s, evs[0], a) && AtRegister(s, a)) || LateAtRemoval(Step(s, evs[0]), evs[1..], a))
  }

  predicate NoUnregister(s: State, a: string) {
    forall t :: 0 <= t < |s.tasks| && s.tasks[t].authority == a ==> !s.tasks[t].pc.Unregister?
  }

  /** The row is there, nobody is left to remove an entry, and there is one or will be. */
  predicate Doomed(s: State, a: string) {
    a in s.rows && NoUnregister(s, a) && (a in s.inFlight || AtRegister(s, a))
  }

  /** Some task of `a` from number `n` on. */
  predicate NewTask(s: State, a: string, n: nat) {
    exists t :: n <= t < |s.tasks| && s.tasks[t].authority == a
  }

  /** Flights of `a` since there were `n` tasks; `entry` and `row` tell how they began. */
  ghost predicate Tracked(s: State, a: string, n: nat, entry: bool, row: bool) {
    && n <= |s.tasks| && Shared(s, a) && Outcomes(s, a, n) && QuietBefore(s, a, n)
    && (row ==> a in s.rows)
    && (a in s.rows && !row ==> NewTask(s, a, n))
    && (a !in s.rows ==> (entry ==> a in s.inFlight) && (a in s.inFlight ==> entry || NewTask(s, a, n)))
    && (a in s.rows ==> RemoverOk(s, a))
  }

  predicate AboutToRemove(task: Task, a: string) { task.authority == a && task.pc.Unregister? }

  /** At most one task is about to remove the entry, and then there is one. */
  predicate RemoverOk(s: State, a: string) {
    && (forall t, u ::
          0 <= t < |s.tasks| && 0 <= u < |s.tasks| && AboutToRemove(s.tasks[t], a) && AboutToRemove(s.tasks[u], a) ==>
            t == u)
    && (a !in s.inFlight ==> NoUnregister(s, a))
  }

  lemma RemoverStep(s: State, t: nat, action: Action, n: nat)
    requires t < |s.tasks| && CanAct(s, s.tasks[t].pc, action) && Clean(Act(t, action))
    requires var a := s.tasks[t].authority; Shared(s, a) && (a in s.rows ==> RemoverOk(s, a))
    ensures var (a, s') := (s.tasks[t].authority, TaskStep(s, t, action)); a in s'.rows ==> RemoverOk(s', a)
  {
    OneTaskMoves(s, t, action);
    assert SharedOk(s, s.tasks[t]);
    MoverOk(s, t, action);
  }

  lemma NewTaskStays(s: State, ev: Event, a: string, n: nat)
    requires Enabled(s, ev)
    ensures NewTask(s, a, n) ==> NewTask(Step(s, ev), a, n)
  {
    if ev.Act? { OneTaskMoves(s, ev.task, ev.action); }
    if NewTask(s, a, n) {
      var t :| n <= t < |s.tasks| && s.tasks[t].authority == a;
      assert Step(s, ev).tasks[t].authority == a;
    }
  }

  lemma TrackedStep(s: State, ev: Event, a: string, n: nat, entry: bool, row: bool)
    requires Tracked(s, a, n, entry, row) && Enabled(s, ev) && (Concerns(s, ev, a) ==> Clean(ev))
    ensures Tracked(Step(s, ev), a, n, entry, row)
  {
    SharedStep(s, ev, a);
    OutcomesStep(s, ev, a, n);
    QuietBeforeStep(s, ev, a, n);
    NewTaskStays(s, ev, a, n);
    if !Concerns(s, ev, a) {
      OthersDoNotTouch(s, ev, a);
    } else if ev.Act? {
      RemoverStep(s, ev.task, ev.action, n);
      OwnTracked(s, ev.task, ev.action, n, entry, row);
    }
  }

  lemma OwnTracked(s: State, t: nat, action: Action, n: nat, entry: bool, row: bool)
    requires t < |s.tasks| && CanAct(s, s.tasks[t].pc, action) && Clean(Act(t, action))
    requires Tracked(s, s.tasks[t].authority, n, entry, row)
    ensures var (a, s') := (s.tasks[t].authority, TaskStep(s, t, action));
            && NewTask(s', a, n) && (a in s.rows ==> a in s'.rows)
            && (a !in s'.rows && entry ==> a in s'.inFlight)
  {
    OneTaskMoves(s, t, action);
    assert SharedOk(s, s.tasks[t]);
    MoverOk(s, t, action);
    assert TaskStep(s, t, action).tasks[t].authority == s.tasks[t].authority && n <= t;
  }

  /** A flight becomes doomed at a late removal and at no other step. */
  lemma DoomedStep(s: State, ev: Event, a: string, n: nat, entry: bool, row: bool)
    requires Tracked(s, a, n, entry, row) && Enabled(s, ev) && (Concerns(s, ev, a) ==> Clean(ev))
    ensures Doomed(Step(s, ev), a) <==> Doomed(s, a) || (IsRemoval(s, ev, a) && AtRegister(s, a))
  {
    var s' := Step(s, ev);
    if !Concerns(s, ev, a) {
      OthersDoNotTouch(s, ev, a);
      SameDoom(s, s', a);
    } else if ev.Act? {
      DoomedOwn(s, ev.task, ev.action);
    } else {
      SameRegister(s, s', a);
    }
  }

  lemma SameDoom(s: State, s': State, a: string)
    requires SameFor(s, s', a)
    ensures Doomed(s', a) <==> Doomed(s, a)
  {
    SameRegister(s, s', a);
  }

  lemma SameRegister(s: State, s': State, a: string)
    requires |s.tasks| <= |s'.tasks|
    requires forall t :: 0 <= t < |s.tasks| && s.tasks[t].authority == a ==> s'.tasks[t] == s.tasks[t]
    requires forall t :: 0 <= t < |s'.tasks| && s'.tasks[t].authority == a ==>
                           (t < |s.tasks| && s.tasks[t].authority == a) || s'.tasks[t].pc.Lookup?
    ensures AtRegister(s', a) <==> AtRegister(s, a)
    ensures NoUnregister(s', a) <==> NoUnregister(s, a)
  {
    if AtRegister(s, a) {
      var t :| 0 <= t < |s.tasks| && s.tasks[t].authority == a && s.tasks[t].pc.Register?;
      assert s'.tasks[t].pc.Register?;
    }
    if !NoUnregister(s, a) {
      var t :| 0 <= t < |s.tasks| && s.tasks[t].authority == a && s.tasks[t].pc.Unregister?;
      assert s'.tasks[t].pc.Unregister?;
    }
  }

  lemma DoomedOwn(s: State, t: nat, action: Action)
    requires t < |s.tasks| && CanAct(s, s.tasks[t].pc, action) && Clean(Act(t, action))
    requires var a := s.tasks[t].authority; Shared(s, a) && (a in s.rows ==> RemoverOk(s, a))
    ensures var a := s.tasks[t].authority;
            Doomed(TaskStep(s, t, action), a) <==> Doomed(s, a) || (IsRemoval(s, Act(t, action), a) && AtRegister(s, a))
  {
    var a, s' := s.tasks[t].authority, TaskStep(s, t, action);
    OneTaskMoves(s, t, action);
    assert SharedOk(s, s.tasks[t]);
    MoverOk(s, t, action);
    if AtRegister(s, a) {
      var u :| 0 <= u < |s.tasks| && s.tasks[u].authority == a && s.tasks[u].pc.Register?;
      assert u != t ==> s'.tasks[u].pc.Register?;
    }
    if AtRegister(s', a) {
      var u :| 0 <= u < |s'.tasks| && s'.tasks[u].authority == a && s'.tasks[u].pc.Register?;
      assert u != t ==> s.tasks[u].pc.Register?;
    }
    if !NoUnregister(s, a) {
      var u :| 0 <= u < |s.tasks| && s.tasks[u].authority == a && s.tasks[u].pc.Unregister?;
      assert u != t ==> s'.tasks[u].pc.Unregister?;
    }
    assert s'.tasks[t].pc.Unregister? ==> action == PutOk;
  }

  lemma {:induction false} LeakFrom(s: State, evs: seq<Event>, a: string, n: nat, entry: bool, row: bool)
    requires Tracked(s, a, n, entry, row) && Runs(s, evs) && CleanFor(s, evs, a)
    ensures Tracked(After(s, evs), a, n, entry, row)
    ensures Doomed(After(s, evs), a) <==> Doomed(s, a) || LateAtRemoval(s, evs, a)
    decreases |evs|
  {
    if evs != [] {
      TrackedStep(s, evs[0], a, n, entry, row);
      DoomedStep(s, evs[0], a, n, entry, row);
      LeakFrom(Step(s, evs[0]), evs[1..], a, n, entry, row);
    }
  }

  lemma QuietEnd(s: State, a: string, n: nat, entry: bool, row: bool)
    requires Tracked(s, a, n, entry, row) && Quiet(s, a)
    ensures a in s.rows <==> row || NewTask(s, a, n)
    ensures a in s.rows ==> (Doomed(s, a) <==> a in s.inFlight)
    ensures a !in s.rows ==> (a in s.inFlight <==> entry)
  {
  }

  /** The entry of `a` after a run: from a state in which all tasks of `a` have returned, over any
      run that is clean for `a` and ends with all its tasks returned again, an entry is left exactly
      if some task had yet to ask for the lock when the entry was removed, or an entry was there
      before and no new task looked for a missing row. */
  lemma EntryLeaksIff(s0: State, past: seq<Event>, evs: seq<Event>, a: string)
    requires Initial(s0) && Runs(s0, past) && Quiet(After(s0, past), a)
    requires Runs(After(s0, past), evs) && CleanFor(After(s0, past), evs, a)
    requires Quiet(After(After(s0, past), evs), a)
    ensures var (s, f) := (After(s0, past), After(After(s0, past), evs));
            a in f.inFlight <==> LateAtRemoval(s, evs, a)
                                 || (a in s.inFlight && (a in s.rows || !NewTask(f, a, |s.tasks|)))
  {
    var s := After(s0, past);
    var n, entry, row := |s.tasks|, a in s.inFlight, a in s.rows;
    ReachableLocks(s0, past);
    assert Tracked(s, a, n, entry, row);
    LeakFrom(s, evs, a, n, entry, row);
    QuietEnd(After(s, evs), a, n, entry, row);
  }

  /** The expiry of the row gives the entry a new chance: after a flight that follows, the entry is
      left exactly if no task came or a removal was late again. */
  lemma EntryAfterExpiry(s0: State, past: seq<Event>, evs: seq<Event>, a: string)
    requires Initial(s0) && Runs(s0, past) && Quiet(After(s0, past), a) && a in After(s0, past).inFlight
    requires var e := Step(After(s0, past), Expire(a)); Runs(e, evs) && CleanFor(e, evs, a) && Quiet(After(e, evs), a)
    ensures var e := Step(After(s0, past), Expire(a));
            a in After(e, evs).inFlight <==> LateAtRemoval(e, evs, a) || !NewTask(After(e, evs), a, |e.tasks|)
  {
    Extend(s0, past, Expire(a));
    EntryLeaksIff(s0, past + [Expire(a)], evs, a);
  }

  /** Until then nobody removes it: an entry beside a row, with nobody about to remove it, stays for
      as long as the events of `a` are clean. */
  predicate Stranded(s: State, a: string) {
    && a in s.rows && a in s.inFlight
    && forall t :: 0 <= t < |s.tasks| && s.tasks[t].authority == a ==>
                     !Resolving(s.tasks[t].pc) && !s.tasks[t].pc.Unregister?
  }

  lemma StrandedStep(s: State, ev: Event, a: string)
    requires Stranded(s, a) && Enabled(s, ev) && (Concerns(s, ev, a) ==> Clean(ev))
    ensures Stranded(Step(s, ev), a)
  {
    if !Concerns(s, ev, a) {
      OthersDoNotTouch(s, ev, a);
    } else if ev.Act? {
      OneTaskMoves(s, ev.task, ev.action);
    }
  }

  lemma {:induction false} StrandedUntilExpiry(s: State, evs: seq<Event>, a: string)
    requires Stranded(s, a) && Runs(s, evs) && CleanFor(s, evs, a)
    ensures Stranded(After(s, evs), a)
    decreases |evs|
  {
    if evs != [] {
      StrandedStep(s, evs[0], a);
      StrandedUntilExpiry(Step(s, evs[0]), evs[1..], a);
    }
  }

  // ----- a run without failures that leaves an entry -----

  /** Task 0 is resolving while task 1 has looked up but not registered. */
  lemma OneResolvesOneIsEarly(a: string) returns (evs: seq<Event>, s: State)
    ensures Leads(EMPTY, evs, s, a)
    ensures s == State([Task(a, Resolve(0)), Task(a, Register)], map[], map[a := 0], map[0 := 0], 1, [a])
  {
    evs, s := ThenArrive(EMPTY, [], EMPTY, a);
    evs, s := ThenArrive(EMPTY, evs, s, a);
    evs, s := Then(EMPTY, evs, s, Act(0, Enter), a);
    evs, s := Then(EMPTY, evs, s, Act(0, Acquire), a);
    assert s.tasks == [Task(a, Recheck(0)), Task(a, Register)];
    evs, s := Then(EMPTY, evs, s, Act(0, LookupOk), a);
    assert s.tasks == [Task(a, Resolve(0)), Task(a, Register)];
  }

  /** Task 0 has stored its result and left; task 1 registers late. */
  lemma LateRegistration(a: string) returns (evs: seq<Event>, s: State)
    ensures Leads(EMPTY, evs, s, a)
    ensures s == State([Task(a, Done(Fallback)), Task(a, Register)], map[a := KnownMissing], map[], map[], 1, [a])
  {
    evs, s := OneResolvesOneIsEarly(a);
    evs, s := Then(EMPTY, evs, s, Act(0, Resolved(Definitive(KnownMissing))), a);
    evs, s := Then(EMPTY, evs, s, Act(0, PutOk), a);
    assert s.tasks == [Task(a, Unregister(0, Fallback)), Task(a, Register)];
    evs, s := Then(EMPTY, evs, s, Act(0, Remove), a);
    evs, s := Then(EMPTY, evs, s, Act(0, Drop), a);
    assert s.tasks == [Task(a, Done(Fallback)), Task(a, Register)];
  }

  /** It happens: without any failure `in_flight` can keep a lock after every task has finished. */
  lemma LockEntryLeaks(a: string) returns (evs: seq<Event>, s: State)
    ensures Leads(EMPTY, evs, s, a) && |s.tasks| == 2
    ensures s.tasks[0].pc.Done? && s.tasks[1].pc.Done? && Stranded(s, a)
  {
    evs, s := LateRegistration(a);
    evs, s := Then(EMPTY, evs, s, Act(1, Enter), a);
    evs, s := Then(EMPTY, evs, s, Act(1, Acquire), a);
    assert s.tasks == [Task(a, Done(Fallback)), Task(a, Recheck(1))];
    evs, s := Then(EMPTY, evs, s, Act(1, LookupOk), a);
    evs, s := Then(EMPTY, evs, s, Act(1, Drop), a);
    assert s.tasks == [Task(a, Done(Fallback)), Task(a, Done(Fallback))];
  }
}
