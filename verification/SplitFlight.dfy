/** When the favicon service of zoeken/zoeken-favicons/src/service.rs can have two flights of one
    authority under way at once. */
module SplitFlight {
  import opened SingleFlight

  // ----- whose locks are whose, under every event -----

  predicate HasLock(pc: Pc) { pc.Waiting? || Critical(pc) }

  /** Every lock belongs to one authority. */
  predicate OwnedBy(s: State, owner: map<nat, string>) {
    && (forall t :: 0 <= t < |s.tasks| && HasLock(s.tasks[t].pc) ==>
                      s.tasks[t].pc.lock in owner && owner[s.tasks[t].pc.lock] == s.tasks[t].authority)
    && (forall b :: b in s.inFlight ==> s.inFlight[b] in owner && owner[s.inFlight[b]] == b)
    && (forall l :: l in owner ==> l < s.nextLock)
  }

  lemma LockMoves(s: State, t: nat, action: Action)
    requires t < |s.tasks| && CanAct(s, s.tasks[t].pc, action)
    ensures var (a, pc, s') := (s.tasks[t].authority, s.tasks[t].pc, TaskStep(s, t, action));
            && |s'.tasks| == |s.tasks|
            && (action == Enter && a in s.inFlight ==>
                  s'.tasks[t].pc == Waiting(s.inFlight[a]) && s'.inFlight == s.inFlight && s'.nextLock == s.nextLock)
            && (action == Enter && a !in s.inFlight ==>
                  s'.tasks[t].pc == Waiting(s.nextLock) && s'.inFlight == s.inFlight[a := s.nextLock]
                  && s'.nextLock == s.nextLock + 1)
            && (action != Enter ==>
                  && (HasLock(s'.tasks[t].pc) ==> HasLock(pc) && s'.tasks[t].pc.lock == pc.lock)
                  && (s'.inFlight == s.inFlight || s'.inFlight == s.inFlight - {a}) && s'.nextLock == s.nextLock)
  {
  }

  lemma OwnedStep(s: State, ev: Event, owner: map<nat, string>) returns (owner': map<nat, string>)
    requires OwnedBy(s, owner) && Enabled(s, ev)
    ensures OwnedBy(Step(s, ev), owner')
  {
    owner' := owner;
    if ev.Act? {
      OneTaskMoves(s, ev.task, ev.action);
      LockMoves(s, ev.task, ev.action);
      var a := s.tasks[ev.task].authority;
      if ev.action == Enter && a !in s.inFlight { owner' := owner[s.nextLock := a]; }
    }
  }

  lemma {:induction false} OwnedAlways(s: State, evs: seq<Event>, owner: map<nat, string>)
    returns (owner': map<nat, string>)
    requires OwnedBy(s, owner) && Runs(s, evs)
    ensures OwnedBy(After(s, evs), owner')
    decreases |evs|
  {
    owner' := owner;
    if evs != [] {
      owner' := OwnedStep(s, evs[0], owner);
      owner' := OwnedAlways(Step(s, evs[0]), evs[1..], owner');
    }
  }

  // ----- a stray flight -----

  /** The task works on its flight with a lock that is not the registered one. */
  predicate Astray(s: State, task: Task) {
    Live(task.pc) && (task.authority !in s.inFlight || task.pc.lock != s.inFlight[task.authority])
  }

  /** A task is about to remove the entry of `a`, or works under another lock. */
  predicate Stray(s: State, a: string) {
    exists t :: 0 <= t < |s.tasks| && s.tasks[t].authority == a && (s.tasks[t].pc.Unregister? || Astray(s, s.tasks[t]))
  }

  /** Two tasks have called the resolver and have neither stored what it says nor given up. */
  predicate TwoResolving(s: State, a: string) {
    exists t, u :: 0 <= t < u < |s.tasks| && s.tasks[t].authority == a && s.tasks[u].authority == a
                   && Resolving(s.tasks[t].pc) && Resolving(s.tasks[u].pc)
  }

  /** From here on, without any further failure of `a`, two flights can come to be under way at once. */
  ghost predicate CanSplit(s: State, a: string) {
    exists evs :: Runs(s, evs) && CleanFor(s, evs, a) && TwoResolving(After(s, evs), a)
  }

  // ----- without a stray task there is one flight -----

  lemma NotStray(s: State, a: string)
    requires LocksHeld(s) && a !in s.rows && !Stray(s, a)
    ensures Shared(s, a)
  {
  }

  lemma SharedIsOne(s: State, a: string)
    requires Shared(s, a)
    ensures !TwoResolving(s, a)
  {
    forall t, u | 0 <= t < u < |s.tasks| && s.tasks[t].authority == a && s.tasks[u].authority == a
      ensures !(Resolving(s.tasks[t].pc) && Resolving(s.tasks[u].pc))
    {
      assert SharedOk(s, s.tasks[t]) && SharedOk(s, s.tasks[u]);
    }
  }

  lemma {:induction false} SharedAlways(s: State, evs: seq<Event>, a: string)
    requires Shared(s, a) && Runs(s, evs) && CleanFor(s, evs, a)
    ensures Shared(After(s, evs), a)
    decreases |evs|
  {
    if evs != [] {
      SharedStep(s, evs[0], a);
      SharedAlways(Step(s, evs[0]), evs[1..], a);
    }
  }

  // ----- with a row no call begins -----

  lemma TwoBefore(s: State, ev: Event, a: string)
    requires a in s.rows && Enabled(s, ev) && (Concerns(s, ev, a) ==> Clean(ev))
    ensures a in Step(s, ev).rows && (TwoResolving(Step(s, ev), a) ==> TwoResolving(s, a))
  {
    var s' := Step(s, ev);
    if !Concerns(s, ev, a) {
      OthersDoNotTouch(s, ev, a);
    } else if ev.Act? {
      OneTaskMoves(s, ev.task, ev.action);
      assert Resolving(s'.tasks[ev.task].pc) ==> Resolving(s.tasks[ev.task].pc);
    }
    if TwoResolving(s', a) {
      var t, u :| 0 <= t < u < |s'.tasks| && s'.tasks[t].authority == a && s'.tasks[u].authority == a
                  && Resolving(s'.tasks[t].pc) && Resolving(s'.tasks[u].pc);
      assert Resolving(s.tasks[t].pc) && Resolving(s.tasks[u].pc);
    }
  }

  lemma {:induction false} TwoAlways(s: State, evs: seq<Event>, a: string)
    requires a in s.rows && Runs(s, evs) && CleanFor(s, evs, a)
    ensures TwoResolving(After(s, evs), a) ==> TwoResolving(s, a)
    decreases |evs|
  {
    if evs != [] {
      TwoBefore(s, evs[0], a);
      TwoAlways(Step(s, evs[0]), evs[1..], a);
    }
  }

  // ----- a stray task can be joined by another flight -----

  /** Every lock has an owner and a holder that is inside its critical section. */
  ghost predicate Sound(s: State) {
    LocksHeld(s) && exists owner :: OwnedBy(s, owner)
  }

  /** A run clean for `a` that stores no row of `a`. */
  ghost predicate Reaches(s: State, evs: seq<Event>, f: State, a: string) {
    Leads(s, evs, f, a) && a !in f.rows
  }

  lemma Go(s: State, evs: seq<Event>, f: State, t: nat, action: Action, a: string) returns (evs': seq<Event>, f': State)
    requires Reaches(s, evs, f, a) && t < |f.tasks| && CanAct(f, f.tasks[t].pc, action)
    requires Clean(Act(t, action)) && action != PutOk
    ensures f' == TaskStep(f, t, action) && Reaches(s, evs', f', a)
  {
    evs', f' := Then(s, evs, f, Act(t, action), a);
  }

  /** The holder of the lock of a task is a task of the same authority. */
  lemma HolderOf(s: State, evs: seq<Event>, f: State, t: nat, a: string)
    requires Sound(s) && Leads(s, evs, f, a)
    requires t < |f.tasks| && f.tasks[t].authority == a && f.tasks[t].pc.Waiting? && f.tasks[t].pc.lock in f.holder
    ensures var h := f.holder[f.tasks[t].pc.lock];
            && h < |f.tasks| && f.tasks[h].authority == a && Critical(f.tasks[h].pc)
            && f.tasks[h].pc.lock == f.tasks[t].pc.lock
  {
    LocksHeldAlways(s, evs);
    var owner :| OwnedBy(s, owner);
    var owner' := OwnedAlways(s, evs, owner);
  }

  lemma LockBelow(s: State, evs: seq<Event>, f: State, t: nat, a: string)
    requires Sound(s) && Leads(s, evs, f, a) && t < |f.tasks| && HasLock(f.tasks[t].pc)
    ensures f.tasks[t].pc.lock < f.nextLock
  {
    var owner :| OwnedBy(s, owner);
    var owner' := OwnedAlways(s, evs, owner);
  }

  /** Only tasks with the lock `l` moved, and at most the entry of `a` went. */
  predicate OnlyLock(s: State, s': State, l: nat, a: string) {
    && |s'.tasks| == |s.tasks|
    && (forall v ::
          0 <= v < |s.tasks| && !(HasLock(s.tasks[v].pc) && s.tasks[v].pc.lock == l) ==> s'.tasks[v] == s.tasks[v])
    && (s'.inFlight == s.inFlight || s'.inFlight == s.inFlight - {a})
  }

  /** A task with nothing left to do lets its lock go. */
  lemma Vacate(s: State, evs: seq<Event>, f: State, h: nat, a: string) returns (evs': seq<Event>, f': State)
    requires Reaches(s, evs, f, a) && h < |f.tasks| && f.tasks[h].authority == a
    requires f.tasks[h].pc.Unregister? || f.tasks[h].pc.Release?
    ensures Reaches(s, evs', f', a) && |f'.tasks| == |f.tasks| && f'.tasks == f.tasks[h := f'.tasks[h]]
    ensures f.tasks[h].pc.lock !in f'.holder
    ensures f'.inFlight == if f.tasks[h].pc.Unregister? then f.inFlight - {a} else f.inFlight
  {
    evs', f' := evs, f;
    if f.tasks[h].pc.Unregister? { evs', f' := Go(s, evs, f, h, Remove, a); }
    evs', f' := Go(s, evs', f', h, Drop, a);
  }

  lemma TakeAndCall(s: State, evs: seq<Event>, f: State, t: nat, a: string) returns (evs': seq<Event>, f': State)
    requires Reaches(s, evs, f, a) && t < |f.tasks| && f.tasks[t].authority == a
    requires f.tasks[t].pc.Waiting? && f.tasks[t].pc.lock !in f.holder
    ensures Reaches(s, evs', f', a) && f'.inFlight == f.inFlight
    ensures f'.tasks == f.tasks[t := Task(a, Resolve(f.tasks[t].pc.lock))]
  {
    evs', f' := Go(s, evs, f, t, Acquire, a);
    evs', f' := Go(s, evs', f', t, LookupOk, a);
  }

  lemma CallNow(s: State, evs: seq<Event>, f: State, t: nat, a: string) returns (evs': seq<Event>, f': State)
    requires Reaches(s, evs, f, a) && t < |f.tasks| && f.tasks[t].authority == a
    requires f.tasks[t].pc.Recheck? || Resolving(f.tasks[t].pc)
    ensures Reaches(s, evs', f', a) && f'.inFlight == f.inFlight
    ensures |f'.tasks| == |f.tasks| && f'.tasks == f.tasks[t := f'.tasks[t]]
    ensures f'.tasks[t].authority == a && Resolving(f'.tasks[t].pc) && f'.tasks[t].pc.lock == f.tasks[t].pc.lock
  {
    evs', f' := evs, f;
    if f.tasks[t].pc.Recheck? { evs', f' := Go(s, evs, f, t, LookupOk, a); }
  }

  /** A live task's lock can be brought to a resolver call. */
  lemma Promote(s: State, evs: seq<Event>, f: State, t: nat, a: string) returns (evs': seq<Event>, f': State, u: nat)
    requires Sound(s) && Reaches(s, evs, f, a) && t < |f.tasks| && f.tasks[t].authority == a && Live(f.tasks[t].pc)
    ensures Reaches(s, evs', f', a) && OnlyLock(f, f', f.tasks[t].pc.lock, a)
    ensures u < |f'.tasks| && f'.tasks[u].authority == a && Resolving(f'.tasks[u].pc)
    ensures f'.tasks[u].pc.lock == f.tasks[t].pc.lock
  {
    var l := f.tasks[t].pc.lock;
    u := t;
    if !f.tasks[t].pc.Waiting? {
      evs', f' := CallNow(s, evs, f, t, a);
    } else if l !in f.holder {
      evs', f' := TakeAndCall(s, evs, f, t, a);
    } else {
      HolderOf(s, evs, f, t, a);
      var h := f.holder[l];
      if Live(f.tasks[h].pc) {
        u := h;
        evs', f' := CallNow(s, evs, f, h, a);
      } else {
        evs', f' := Vacate(s, evs, f, h, a);
        evs', f' := TakeAndCall(s, evs', f', t, a);
      }
    }
  }

  /** A new task joins the registered flight, or opens one. */
  lemma Join(s: State, evs: seq<Event>, f: State, a: string) returns (evs': seq<Event>, f': State, l: nat)
    requires Reaches(s, evs, f, a)
    ensures Reaches(s, evs', f', a) && f'.tasks == f.tasks + [Task(a, Waiting(l))]
    ensures a in f'.inFlight && l == f'.inFlight[a] == if a in f.inFlight then f.inFlight[a] else f.nextLock
  {
    evs', f' := ThenArrive(s, evs, f, a);
    evs', f' := Go(s, evs', f', |f.tasks|, Enter, a);
    l := f'.inFlight[a];
  }

  lemma TwoLocks(s: State, t: nat, u: nat, a: string)
    requires t < |s.tasks| && u < |s.tasks| && s.tasks[t].authority == a && s.tasks[u].authority == a
    requires Resolving(s.tasks[t].pc) && Resolving(s.tasks[u].pc) && s.tasks[t].pc.lock != s.tasks[u].pc.lock
    ensures TwoResolving(s, a)
  {
    var x, y := if t < u then t else u, if t < u then u else t;
    assert 0 <= x < y < |s.tasks|;
  }

  lemma SplitFromAstray(s: State, evs: seq<Event>, f: State, t: nat, a: string)
    requires Sound(s) && Reaches(s, evs, f, a) && t < |f.tasks| && f.tasks[t].authority == a && Astray(f, f.tasks[t])
    ensures CanSplit(s, a)
  {
    var evs1, f1, u := Promote(s, evs, f, t, a);
    LockBelow(s, evs1, f1, u, a);
    var evs2, f2, l := Join(s, evs1, f1, a);
    assert f2.tasks[u] == f1.tasks[u] && f2.tasks[|f1.tasks|] == Task(a, Waiting(l));
    assert l != f1.tasks[u].pc.lock;
    var evs3, f3, v := Promote(s, evs2, f2, |f1.tasks|, a);
    assert f3.tasks[u] == f2.tasks[u];
    TwoLocks(f3, u, v, a);
  }

  lemma SplitFromUnregister(s: State, t: nat, a: string)
    requires Sound(s) && a !in s.rows && t < |s.tasks| && s.tasks[t].authority == a && s.tasks[t].pc.Unregister?
    ensures CanSplit(s, a)
  {
    var evs, f, l := Join(s, [], s, a);
    var x := |s.tasks|;
    assert f.tasks[t] == s.tasks[t] && f.tasks[x] == Task(a, Waiting(l));
    evs, f := Vacate(s, evs, f, t, a);
    SplitFromAstray(s, evs, f, x, a);
  }

  /** In every reachable state, whatever failed before: two flights of `a` can come to be under way at
      once without a further failure exactly if there is no row and a task is about to remove the
      entry or works under a lock that is not registered, or two already are. */
  lemma SplitIff(s0: State, past: seq<Event>, a: string)
    requires Initial(s0) && Runs(s0, past)
    ensures var s := After(s0, past);
            CanSplit(s, a) <==> if a in s.rows then TwoResolving(s, a) else Stray(s, a)
  {
    var s := After(s0, past);
    ReachableLocks(s0, past);
    assert OwnedBy(s0, map[]);
    var owner := OwnedAlways(s0, past, map[]);
    assert Sound(s);
    if a in s.rows {
      forall evs | Runs(s, evs) && CleanFor(s, evs, a) && TwoResolving(After(s, evs), a) ensures TwoResolving(s, a) {
        TwoAlways(s, evs, a);
      }
      if TwoResolving(s, a) {
        assert Runs(s, []) && CleanFor(s, [], a) && After(s, []) == s;
      }
    } else if Stray(s, a) {
      var t :| 0 <= t < |s.tasks| && s.tasks[t].authority == a && (s.tasks[t].pc.Unregister? || Astray(s, s.tasks[t]));
      if s.tasks[t].pc.Unregister? { SplitFromUnregister(s, t, a); } else { SplitFromAstray(s, [], s, t, a); }
    } else {
      NotStray(s, a);
      forall evs | Runs(s, evs) && CleanFor(s, evs, a) ensures !TwoResolving(After(s, evs), a) {
        SharedAlways(s, evs, a);
        SharedIsOne(After(s, evs), a);
      }
    }
  }

  /** A failure inside the critical section: the second lookup, the resolver, or the put, which may
      also be refused. */
  predicate Fails(pc: Pc, action: Action) {
    (pc.Recheck? && action == LookupError) || (pc.Resolve? && action == Resolved(Failed))
    || (pc.Put? && (action == PutError || action == PutRefused))
  }

  /** Every failure inside the critical section that leaves no row, in any reachable state, is enough
      for two flights at once. */
  lemma EveryFailureSplits(s0: State, past: seq<Event>, t: nat, action: Action)
    requires Initial(s0) && Runs(s0, past) && Enabled(After(s0, past), Act(t, action))
    requires var s := After(s0, past); Fails(s.tasks[t].pc, action) && s.tasks[t].authority !in s.rows
    ensures var s := After(s0, past); CanSplit(Step(s, Act(t, action)), s.tasks[t].authority)
  {
    var s, ev := After(s0, past), Act(t, action);
    Extend(s0, past, ev);
    assert Step(s, ev).tasks[t].pc.Unregister?;
    SplitIff(s0, past + [ev], s.tasks[t].authority);
  }

  /** Such a state is one failed put away: a run that is clean until its last event. */
  lemma FailedPutSplitsTheFlight(a: string) returns (evs: seq<Event>)
    ensures Runs(EMPTY, evs) && CleanFor(EMPTY, evs, a)
    ensures Runs(EMPTY, evs + [Act(0, PutError)]) && CanSplit(After(EMPTY, evs + [Act(0, PutError)]), a)
  {
    var s;
    evs, s := ThenArrive(EMPTY, [], EMPTY, a);
    evs, s := Then(EMPTY, evs, s, Act(0, Enter), a);
    evs, s := Then(EMPTY, evs, s, Act(0, Acquire), a);
    evs, s := Then(EMPTY, evs, s, Act(0, LookupOk), a);
    evs, s := Then(EMPTY, evs, s, Act(0, Resolved(Definitive(KnownMissing))), a);
    assert s.tasks == [Task(a, Put(0, KnownMissing))];
    Extend(EMPTY, evs, Act(0, PutError));
    EveryFailureSplits(EMPTY, evs, 0, PutError);
  }
}
