/** The storage-backed favicon lookup of zoeken/zoeken-favicons/src/service.rs as interleaved
    steps of any number of tasks over any number of authorities. A step is what one task does
    between two awaits; storage, resolver and scheduler choose freely. */
module SingleFlight {

  datatype Favicon = Favicon(data: seq<bv8>, mime: string)

  datatype Outcome = Serve(favicon: Favicon) | Fallback

  /** A stored row: an icon, or the knowledge that there is none. */
  datatype Row = Hit(favicon: Favicon) | KnownMissing

  datatype Answer = Definitive(row: Row) | Failed

  /** Where a `get_storage` call stands. Every state from `Recheck` to `Release` holds the lock. */
  datatype Pc =
    | Lookup
    | Register
    | Waiting(lock: nat)
    | Recheck(lock: nat)
    | Resolve(lock: nat)
    | Put(lock: nat, row: Row)
    | Unregister(lock: nat, outcome: Outcome)
    | Release(lock: nat, outcome: Outcome)
    | Done(outcome: Outcome)

  datatype Task = Task(authority: string, pc: Pc)

  datatype State = State(
    tasks: seq<Task>,
    rows: map<string, Row>,
    inFlight: map<string, nat>,
    holder: map<nat, nat>,
    nextLock: nat,
    calls: seq<string>)  // authorities the resolver was called for, in order

  /** One step of a task: what it was waiting for came back. Storage may accept an icon that is too
      large without storing it (`PutRefused`), which the task serves all the same. */
  datatype Action =
    | LookupOk
    | LookupError
    | Enter
    | Acquire
    | Resolved(answer: Answer)
    | PutOk
    | PutRefused
    | PutError
    | Remove
    | Drop

  datatype Event =
    | Arrive(authority: string)
    | Expire(authority: string)
    | Act(task: nat, action: Action)

  function OutcomeOf(row: Row): Outcome {
    match row
    case Hit(favicon) => Serve(favicon)
    case KnownMissing => Fallback
  }

  predicate Critical(pc: Pc) { pc.Recheck? || pc.Resolve? || pc.Put? || pc.Unregister? || pc.Release? }

  predicate Resolving(pc: Pc) { pc.Resolve? || pc.Put? }

  predicate Finishing(pc: Pc) { pc.Unregister? || pc.Release? || pc.Done? }

  predicate CanAct(s: State, pc: Pc, action: Action) {
    match action
    case LookupOk => pc.Lookup? || pc.Recheck?
    case LookupError => pc.Lookup? || pc.Recheck?
    case Enter => pc.Register?
    case Acquire => pc.Waiting? && pc.lock !in s.holder
    case Resolved(_) => pc.Resolve?
    case PutOk => pc.Put?
    case PutRefused => pc.Put? && pc.row.Hit?
    case PutError => pc.Put?
    case Remove => pc.Unregister?
    case Drop => pc.Release?
  }

  /** What can come back to a task where it stands: every lookup, resolve and put may fail, a put may
      be refused only of an icon, and only a lock that is held makes a task wait. */
  lemma ActionsPossible(s: State, pc: Pc, action: Action)
    ensures CanAct(s, pc, action) <==>
            match pc
            case Lookup => action in {LookupOk, LookupError}
            case Register => action == Enter
            case Waiting(lock) => action == Acquire && lock !in s.holder
            case Recheck(_) => action in {LookupOk, LookupError}
            case Resolve(_) => action.Resolved?
            case Put(_, row) => action in {PutOk, PutError} || (action == PutRefused && row != KnownMissing)
            case Unregister(_, _) => action == Remove
            case Release(_, _) => action == Drop
            case Done(_) => false
  {
  }

  predicate Enabled(s: State, ev: Event) {
    ev.Act? ==> ev.task < |s.tasks| && CanAct(s, s.tasks[ev.task].pc, ev.action)
  }

  function Goto(s: State, t: nat, pc: Pc): State
    requires t < |s.tasks|
  {
    s.(tasks := s.tasks[t := s.tasks[t].(pc := pc)])
  }

  function TaskStep(s: State, t: nat, action: Action): State
    requires t < |s.tasks| && CanAct(s, s.tasks[t].pc, action)
  {
    var a, pc := s.tasks[t].authority, s.tasks[t].pc;
    match action
    case LookupOk =>
      if a in s.rows then
        var outcome := OutcomeOf(s.rows[a]);
        Goto(s, t, if pc.Lookup? then Done(outcome) else Release(pc.lock, outcome))
      else if pc.Lookup? then Goto(s, t, Register)
      else Goto(s, t, Resolve(pc.lock)).(calls := s.calls + [a])
    case LookupError => Goto(s, t, if pc.Lookup? then Done(Fallback) else Unregister(pc.lock, Fallback))
    case Enter =>
      if a in s.inFlight then Goto(s, t, Waiting(s.inFlight[a]))
      else Goto(s, t, Waiting(s.nextLock)).(inFlight := s.inFlight[a := s.nextLock], nextLock := s.nextLock + 1)
    case Acquire => Goto(s, t, Recheck(pc.lock)).(holder := s.holder[pc.lock := t])
    case Resolved(Definitive(row)) => Goto(s, t, Put(pc.lock, row))
    case Resolved(Failed) => Goto(s, t, Unregister(pc.lock, Fallback))
    case PutOk => Goto(s, t, Unregister(pc.lock, OutcomeOf(pc.row))).(rows := s.rows[a := pc.row])
    case PutRefused => Goto(s, t, Unregister(pc.lock, OutcomeOf(pc.row)))
    case PutError => Goto(s, t, Unregister(pc.lock, Fallback))
    case Remove => Goto(s, t, Release(pc.lock, pc.outcome)).(inFlight := s.inFlight - {a})
    case Drop => Goto(s, t, Done(pc.outcome)).(holder := s.holder - {pc.lock})
  }

  function Step(s: State, ev: Event): State
    requires Enabled(s, ev)
  {
    match ev
    case Arrive(a) => s.(tasks := s.tasks + [Task(a, Lookup)])
    case Expire(a) => s.(rows := s.rows - {a})
    case Act(t, action) => TaskStep(s, t, action)
  }

  /** Runs: a sequence of events, each enabled where it happens. */
  predicate Runs(s: State, evs: seq<Event>)
    decreases |evs|
  {
    evs == [] || (Enabled(s, evs[0]) && Runs(Step(s, evs[0]), evs[1..]))
  }

  function After(s: State, evs: seq<Event>): State
    requires Runs(s, evs)
    decreases |evs|
  {
    if evs == [] then s else After(Step(s, evs[0]), evs[1..])
  }

  /** A fresh service over any stored rows. */
  predicate Initial(s: State) {
    s.tasks == [] && s.inFlight == map[] && s.holder == map[] && s.calls == []
  }

  /** Resolves are definitive, storage answers, puts succeed and rows stay. */
  predicate Clean(ev: Event) {
    match ev
    case Arrive(_) => true
    case Expire(_) => false
    case Act(_, action) =>
      action != LookupError && action != PutRefused && action != PutError && action != Resolved(Failed)
  }

  /** What cannot disturb a flight: a clean step, or a first lookup that fails. */
  predicate Gentle(pc: Pc, action: Action) { Clean(Act(0, action)) || (pc.Lookup? && action == LookupError) }

  /** The event is clean, or the failure of a first lookup. */
  predicate IsGentle(s: State, ev: Event) {
    Clean(ev) || (ev.Act? && ev.task < |s.tasks| && Gentle(s.tasks[ev.task].pc, ev.action))
  }

  function CallsFor(calls: seq<string>, a: string): nat {
    multiset(calls)[a]
  }

  function Stage(pc: Pc): nat {
    match pc
    case Lookup => 0
    case Register => 1
    case Waiting(_) => 2
    case Recheck(_) => 3
    case Resolve(_) => 4
    case Put(_, _) => 5
    case Unregister(_, _) => 6
    case Release(_, _) => 7
    case Done(_) => 8
  }

  // ----- the locks, under every event -----

  /** A lock is held by exactly the task that is inside its critical section. */
  predicate LocksHeld(s: State) {
    && (forall t :: 0 <= t < |s.tasks| && Critical(s.tasks[t].pc) ==>
                      s.tasks[t].pc.lock in s.holder && s.holder[s.tasks[t].pc.lock] == t)
    && (forall l :: l in s.holder ==>
                      s.holder[l] < |s.tasks| && Critical(s.tasks[s.holder[l]].pc) && s.tasks[s.holder[l]].pc.lock == l)
  }

  /** A task step moves one task, forward, and nothing else in the task list. */
  lemma OneTaskMoves(s: State, t: nat, action: Action)
    requires t < |s.tasks| && CanAct(s, s.tasks[t].pc, action)
    ensures var s' := TaskStep(s, t, action);
            && |s'.tasks| == |s.tasks|
            && s'.tasks == s.tasks[t := s'.tasks[t]]
            && s'.tasks[t].authority == s.tasks[t].authority
            && Stage(s'.tasks[t].pc) > Stage(s.tasks[t].pc)
  {
  }

  /** Only `Acquire` and `Drop` touch the locks. */
  lemma LocksUntouched(s: State, t: nat, action: Action)
    requires t < |s.tasks| && CanAct(s, s.tasks[t].pc, action) && action != Acquire && action != Drop
    ensures var s' := TaskStep(s, t, action);
            && s'.holder == s.holder
            && |s'.tasks| == |s.tasks|
            && (Critical(s'.tasks[t].pc) <==> Critical(s.tasks[t].pc))
            && (Critical(s.tasks[t].pc) ==> s'.tasks[t].pc.lock == s.tasks[t].pc.lock)
  {
  }

  lemma LocksHeldStep(s: State, ev: Event)
    requires LocksHeld(s) && Enabled(s, ev)
    ensures LocksHeld(Step(s, ev))
  {
    if ev.Act? {
      OneTaskMoves(s, ev.task, ev.action);
      if ev.action == Acquire {
        LocksHeldAcquire(s, ev.task);
      } else if ev.action == Drop {
        LocksHeldDrop(s, ev.task);
      } else {
        LocksUntouched(s, ev.task, ev.action);
        SameLocks(s, Step(s, ev));
      }
    }
  }

  lemma SameLocks(s: State, s': State)
    requires LocksHeld(s) && |s'.tasks| == |s.tasks| && s'.holder == s.holder
    requires forall u :: 0 <= u < |s.tasks| ==>
                           && (Critical(s'.tasks[u].pc) <==> Critical(s.tasks[u].pc))
                           && (Critical(s.tasks[u].pc) ==> s'.tasks[u].pc.lock == s.tasks[u].pc.lock)
    ensures LocksHeld(s')
  {
  }

  lemma LocksHeldAcquire(s: State, t: nat)
    requires LocksHeld(s) && t < |s.tasks| && CanAct(s, s.tasks[t].pc, Acquire)
    ensures LocksHeld(TaskStep(s, t, Acquire))
  {
  }

  lemma LocksHeldDrop(s: State, t: nat)
    requires LocksHeld(s) && t < |s.tasks| && CanAct(s, s.tasks[t].pc, Drop)
    ensures LocksHeld(TaskStep(s, t, Drop))
  {
  }

  lemma {:induction false} LocksHeldAlways(s: State, evs: seq<Event>)
    requires LocksHeld(s) && Runs(s, evs)
    ensures LocksHeld(After(s, evs))
    decreases |evs|
  {
    if evs != [] {
      LocksHeldStep(s, evs[0]);
      LocksHeldAlways(Step(s, evs[0]), evs[1..]);
    }
  }

  /** Whatever fails, two tasks are never inside the critical section of one lock. */
  lemma {:induction false} MutualExclusion(s: State, evs: seq<Event>, t: nat, u: nat)
    requires Initial(s) && Runs(s, evs)
    requires var tasks := After(s, evs).tasks;
             t < |tasks| && u < |tasks| && Critical(tasks[t].pc) && Critical(tasks[u].pc) &&
             tasks[t].pc.lock == tasks[u].pc.lock
    ensures t == u
  {
    LocksHeldAlways(s, evs);
  }

  // ----- events of one authority -----

  /** The event belongs to `a`. */
  predicate Concerns(s: State, ev: Event, a: string) {
    match ev
    case Arrive(b) => b == a
    case Expire(b) => b == a
    case Act(t, _) => t < |s.tasks| && s.tasks[t].authority == a
  }

  /** A run whose events of `a` are clean; other authorities may fail as they like. */
  predicate CleanFor(s: State, evs: seq<Event>, a: string)
    requires Runs(s, evs)
    decreases |evs|
  {
    evs == [] || ((Concerns(s, evs[0], a) ==> Clean(evs[0])) && CleanFor(Step(s, evs[0]), evs[1..], a))
  }

  /** A run whose events of `a` are gentle: only failures inside the critical section, and the loss
      of the row, are excluded. */
  predicate GentleFor(s: State, evs: seq<Event>, a: string)
    requires Runs(s, evs)
    decreases |evs|
  {
    evs == [] || ((Concerns(s, evs[0], a) ==> IsGentle(s, evs[0])) && GentleFor(Step(s, evs[0]), evs[1..], a))
  }

  /** All that the protocol knows of `a` is as before. */
  predicate SameFor(s: State, s': State, a: string) {
    && (a in s.rows <==> a in s'.rows) && (a in s.rows ==> s'.rows[a] == s.rows[a])
    && (a in s.inFlight <==> a in s'.inFlight) && (a in s.inFlight ==> s'.inFlight[a] == s.inFlight[a])
    && |s.tasks| <= |s'.tasks|
    && (forall t :: 0 <= t < |s.tasks| && s.tasks[t].authority == a ==> s'.tasks[t] == s.tasks[t])
    && (forall t :: 0 <= t < |s'.tasks| && s'.tasks[t].authority == a ==> t < |s.tasks| && s.tasks[t].authority == a)
    && CallsFor(s'.calls, a) == CallsFor(s.calls, a)
  }

  /** Events of other authorities do not touch `a`. */
  lemma OthersDoNotTouch(s: State, ev: Event, a: string)
    requires Enabled(s, ev) && !Concerns(s, ev, a)
    ensures SameFor(s, Step(s, ev), a)
  {
    if ev.Act? { OneTaskMoves(s, ev.task, ev.action); }
  }

  // ----- single flight, when the events of an authority are clean -----

  /** The task takes part in a flight that has not stored its result. */
  predicate Live(pc: Pc) { pc.Waiting? || pc.Recheck? || Resolving(pc) }

  /** While the row is absent, every live task shares the registered lock and none is about to
      remove it; once it is present, nobody resolves. */
  predicate SharedOk(s: State, task: Task) {
    if task.authority in s.rows then !Resolving(task.pc)
    else
      && !task.pc.Unregister?
      && (Live(task.pc) ==> task.authority in s.inFlight && task.pc.lock == s.inFlight[task.authority])
  }

  predicate Shared(s: State, a: string) {
    && LocksHeld(s)
    && (forall t :: 0 <= t < |s.tasks| && s.tasks[t].authority == a ==> SharedOk(s, s.tasks[t]))
  }

  /** The outcome serves an icon exactly if the row holds that icon, and the fallback exactly if it
      says that there is none. */
  ghost predicate Serves(outcome: Outcome, row: Row) {
    && (forall icon :: outcome == Serve(icon) <==> row == Hit(icon))
    && (outcome == Fallback <==> row == KnownMissing)
  }

  /** The tasks from number `n` on that have an outcome serve the row. */
  ghost predicate Outcomes(s: State, a: string, n: nat) {
    forall t :: n <= t < |s.tasks| && s.tasks[t].authority == a && Finishing(s.tasks[t].pc) ==>
                  a in s.rows && Serves(s.tasks[t].pc.outcome, s.rows[a])
  }

  /** At most one call beyond the first `c`, and it is in progress while there is no row. */
  predicate CalledOnce(s: State, a: string, c: nat) {
    && c <= CallsFor(s.calls, a) <= c + 1
    && (a !in s.rows && CallsFor(s.calls, a) == c + 1 ==>
          exists t :: 0 <= t < |s.tasks| && s.tasks[t].authority == a && Resolving(s.tasks[t].pc))
  }

  /** All tasks of `a` have returned. */
  predicate Quiet(s: State, a: string) {
    forall t :: 0 <= t < |s.tasks| && s.tasks[t].authority == a ==> s.tasks[t].pc.Done?
  }

  /** Two tasks of one absent authority are never both inside the critical section with work to do. */
  lemma AloneWhileAbsent(s: State, a: string, t: nat, u: nat)
    requires Shared(s, a) && a !in s.rows && t < |s.tasks| && u < |s.tasks|
    requires s.tasks[t].authority == a && s.tasks[u].authority == a
    requires Critical(s.tasks[t].pc) && Live(s.tasks[t].pc) && Critical(s.tasks[u].pc) && Live(s.tasks[u].pc)
    ensures t == u
  {
    assert SharedOk(s, s.tasks[t]) && SharedOk(s, s.tasks[u]);
  }

  /** What a clean step of a task in order does to its own authority. */
  lemma MoverOk(s: State, t: nat, action: Action)
    requires t < |s.tasks| && CanAct(s, s.tasks[t].pc, action)
    requires Gentle(s.tasks[t].pc, action) && SharedOk(s, s.tasks[t])
    ensures var (a, pc, s') := (s.tasks[t].authority, s.tasks[t].pc, TaskStep(s, t, action));
            && |s'.tasks| == |s.tasks| && SharedOk(s', s'.tasks[t])
            && (action != PutOk ==> s'.rows == s.rows)
            && (action == PutOk ==> pc.Put? && a !in s.rows && s'.rows == s.rows[a := pc.row])
            && (action == Remove ==> pc.Unregister? && a in s.rows && s'.inFlight == s.inFlight - {a})
            && (action == Enter && a !in s.inFlight ==> s'.inFlight == s.inFlight[a := s.nextLock])
            && (action != Remove && (action != Enter || a in s.inFlight) ==> s'.inFlight == s.inFlight)
  {
  }

  lemma OthersOk(s: State, t: nat, action: Action, u: nat)
    requires t < |s.tasks| && CanAct(s, s.tasks[t].pc, action) && Gentle(s.tasks[t].pc, action)
    requires Shared(s, s.tasks[t].authority)
    requires u < |s.tasks| && u != t && s.tasks[u].authority == s.tasks[t].authority
    ensures SharedOk(TaskStep(s, t, action), s.tasks[u])
  {
    assert SharedOk(s, s.tasks[t]) && SharedOk(s, s.tasks[u]);
    MoverOk(s, t, action);
    if action == PutOk && Resolving(s.tasks[u].pc) { AloneWhileAbsent(s, s.tasks[t].authority, t, u); }
  }

  lemma SharedStep(s: State, ev: Event, a: string)
    requires Shared(s, a) && Enabled(s, ev) && (Concerns(s, ev, a) ==> IsGentle(s, ev))
    ensures Shared(Step(s, ev), a)
  {
    LocksHeldStep(s, ev);
    var s' := Step(s, ev);
    if !Concerns(s, ev, a) {
      OthersDoNotTouch(s, ev, a);
    } else if ev.Act? {
      OneTaskMoves(s, ev.task, ev.action);
      assert SharedOk(s, s.tasks[ev.task]);
      MoverOk(s, ev.task, ev.action);
      forall u | 0 <= u < |s'.tasks| && s'.tasks[u].authority == a ensures SharedOk(s', s'.tasks[u]) {
        if u != ev.task { OthersOk(s, ev.task, ev.action, u); }
      }
    }
  }

  /** The step gave the task a row to answer with: storage had it, or the resolver did and storage
      took it or refused it as too large. */
  predicate Took(s: State, t: nat, action: Action, row: Row)
    requires t < |s.tasks| && CanAct(s, s.tasks[t].pc, action)
  {
    || (action == LookupOk && s.tasks[t].authority in s.rows && s.rows[s.tasks[t].authority] == row)
    || (action in {PutOk, PutRefused} && s.tasks[t].pc.row == row)
  }

  /** How a task comes by its outcome: it serves an icon exactly if the step took that icon, and the
      fallback exactly if it took the knowledge that there is none, or something failed. */
  lemma OutcomeTaken(s: State, t: nat, action: Action)
    requires t < |s.tasks| && CanAct(s, s.tasks[t].pc, action) && !Finishing(s.tasks[t].pc)
    ensures var pc := TaskStep(s, t, action).tasks[t].pc;
            Finishing(pc) ==>
              && (forall icon :: pc.outcome == Serve(icon) <==> Took(s, t, action, Hit(icon)))
              && (pc.outcome == Fallback <==>
                    Took(s, t, action, KnownMissing) || action in {LookupError, PutError, Resolved(Failed)})
  {
  }

  /** A task keeps its outcome, whatever happens. */
  lemma {:induction false} OutcomeStays(s: State, evs: seq<Event>, t: nat)
    requires Runs(s, evs) && t < |s.tasks| && Finishing(s.tasks[t].pc)
    ensures var f := After(s, evs);
            t < |f.tasks| && Finishing(f.tasks[t].pc) && f.tasks[t].pc.outcome == s.tasks[t].pc.outcome
    decreases |evs|
  {
    if evs != [] {
      if evs[0].Act? { OneTaskMoves(s, evs[0].task, evs[0].action); }
      OutcomeStays(Step(s, evs[0]), evs[1..], t);
    }
  }

  /** A lookup that finds a row ends in a call that serves it, whatever happens afterwards. */
  lemma StoredRowIsServed(s: State, t: nat, row: Row, evs: seq<Event>)
    requires t < |s.tasks| && CanAct(s, s.tasks[t].pc, LookupOk)
    requires s.tasks[t].authority in s.rows && s.rows[s.tasks[t].authority] == row
    requires Runs(Step(s, Act(t, LookupOk)), evs)
    ensures var f := After(Step(s, Act(t, LookupOk)), evs);
            t < |f.tasks| && Finishing(f.tasks[t].pc) && Serves(f.tasks[t].pc.outcome, row)
  {
    OutcomeTaken(s, t, LookupOk);
    OutcomeStays(Step(s, Act(t, LookupOk)), evs, t);
  }

  /** A first lookup that finds a row returns at once. */
  lemma FirstLookupReturns(s: State, t: nat)
    requires t < |s.tasks| && s.tasks[t].pc.Lookup? && s.tasks[t].authority in s.rows
    ensures Step(s, Act(t, LookupOk)).tasks[t].pc.Done?
  {
  }

  /** What the resolver says is what the task puts, however long that takes. */
  lemma {:induction false} PutStays(s: State, evs: seq<Event>, t: nat)
    requires Runs(s, evs) && t < |s.tasks| && s.tasks[t].pc.Put?
    ensures var f := After(s, evs);
            && t < |f.tasks| && Stage(f.tasks[t].pc) >= Stage(s.tasks[t].pc)
            && f.tasks[t].authority == s.tasks[t].authority
            && (f.tasks[t].pc.Put? ==> f.tasks[t].pc == s.tasks[t].pc)
    decreases |evs|
  {
    if evs != [] {
      if evs[0].Act? { OneTaskMoves(s, evs[0].task, evs[0].action); }
      if Step(s, evs[0]).tasks[t].pc.Put? {
        PutStays(Step(s, evs[0]), evs[1..], t);
      } else {
        StageGrows(Step(s, evs[0]), evs[1..], t);
      }
    }
  }

  lemma {:induction false} StageGrows(s: State, evs: seq<Event>, t: nat)
    requires Runs(s, evs) && t < |s.tasks|
    ensures var f := After(s, evs);
            && t < |f.tasks| && Stage(f.tasks[t].pc) >= Stage(s.tasks[t].pc)
            && f.tasks[t].authority == s.tasks[t].authority
    decreases |evs|
  {
    if evs != [] {
      if evs[0].Act? { OneTaskMoves(s, evs[0].task, evs[0].action); }
      StageGrows(Step(s, evs[0]), evs[1..], t);
    }
  }

  /** What the resolver definitely answers is stored, if storage takes it, and served, whatever else
      happens in between and afterwards. */
  lemma ResolvedRowIsServed(s: State, t: nat, row: Row, evs: seq<Event>, put: Action, rest: seq<Event>)
    requires t < |s.tasks| && CanAct(s, s.tasks[t].pc, Resolved(Definitive(row)))
    requires Runs(Step(s, Act(t, Resolved(Definitive(row)))), evs)
    requires var m := After(Step(s, Act(t, Resolved(Definitive(row)))), evs);
             && put in {PutOk, PutRefused} && Enabled(m, Act(t, put))
             && Runs(Step(m, Act(t, put)), rest)
    ensures var n := Step(After(Step(s, Act(t, Resolved(Definitive(row)))), evs), Act(t, put));
            && (put == PutOk ==> s.tasks[t].authority in n.rows && n.rows[s.tasks[t].authority] == row)
            && t < |After(n, rest).tasks| && Finishing(After(n, rest).tasks[t].pc)
            && Serves(After(n, rest).tasks[t].pc.outcome, row)
  {
    var s1 := Step(s, Act(t, Resolved(Definitive(row))));
    PutStays(s1, evs, t);
    OutcomeTaken(After(s1, evs), t, put);
    OutcomeStays(Step(After(s1, evs), Act(t, put)), rest, t);
  }

  /** A finished step serves the row. */
  lemma MoverOutcome(s: State, t: nat, action: Action, n: nat)
    requires t < |s.tasks| && CanAct(s, s.tasks[t].pc, action) && Clean(Act(t, action)) && SharedOk(s, s.tasks[t])
    requires Outcomes(s, s.tasks[t].authority, n) && n <= t
    ensures var (a, s') := (s.tasks[t].authority, TaskStep(s, t, action));
            Finishing(s'.tasks[t].pc) ==> a in s'.rows && Serves(s'.tasks[t].pc.outcome, s'.rows[a])
  {
  }

  lemma OutcomesStep(s: State, ev: Event, a: string, n: nat)
    requires Shared(s, a) && Outcomes(s, a, n) && Enabled(s, ev) && (Concerns(s, ev, a) ==> Clean(ev))
    requires forall t :: 0 <= t < |s.tasks| && t < n && s.tasks[t].authority == a ==> s.tasks[t].pc.Done?
    ensures Outcomes(Step(s, ev), a, n)
  {
    if !Concerns(s, ev, a) {
      OthersDoNotTouch(s, ev, a);
    } else if ev.Act? {
      OneTaskMoves(s, ev.task, ev.action);
      assert SharedOk(s, s.tasks[ev.task]);
      MoverOk(s, ev.task, ev.action);
      MoverOutcome(s, ev.task, ev.action, n);
    }
  }

  /** A call is logged exactly when a task moves from `Recheck` to `Resolve`. */
  lemma CallsGrow(s: State, t: nat, action: Action)
    requires t < |s.tasks| && CanAct(s, s.tasks[t].pc, action) && Gentle(s.tasks[t].pc, action)
    ensures var (a, s') := (s.tasks[t].authority, TaskStep(s, t, action));
            && |s'.tasks| == |s.tasks|
            && (s'.calls == s.calls
                || (s.tasks[t].pc.Recheck? && s'.tasks[t].pc.Resolve? && a !in s.rows
                    && s'.calls == s.calls + [a] && s'.rows == s.rows))
            && (Resolving(s.tasks[t].pc) && a !in s'.rows ==> Resolving(s'.tasks[t].pc))
            && (a in s.rows ==> a in s'.rows)
  {
  }

  lemma CalledOnceStep(s: State, ev: Event, a: string, c: nat)
    requires Shared(s, a) && CalledOnce(s, a, c) && Enabled(s, ev) && (Concerns(s, ev, a) ==> IsGentle(s, ev))
    ensures CalledOnce(Step(s, ev), a, c)
  {
    var s' := Step(s, ev);
    if !Concerns(s, ev, a) {
      OthersDoNotTouch(s, ev, a);
    } else if ev.Act? {
      CallOfOwn(s, ev.task, ev.action, c);
    } else if a !in s.rows && CallsFor(s.calls, a) == c + 1 {
      var u :| 0 <= u < |s.tasks| && s.tasks[u].authority == a && Resolving(s.tasks[u].pc);
      assert s'.tasks[u] == s.tasks[u];
    }
  }

  lemma CallOfOwn(s: State, t: nat, action: Action, c: nat)
    requires t < |s.tasks| && CanAct(s, s.tasks[t].pc, action) && Gentle(s.tasks[t].pc, action)
    requires var a := s.tasks[t].authority; Shared(s, a) && CalledOnce(s, a, c)
    ensures CalledOnce(TaskStep(s, t, action), s.tasks[t].authority, c)
  {
    var a, s' := s.tasks[t].authority, TaskStep(s, t, action);
    OneTaskMoves(s, t, action);
    CallsGrow(s, t, action);
    if a !in s.rows && CallsFor(s.calls, a) == c + 1 {
      var u: nat :| 0 <= u < |s.tasks| && s.tasks[u].authority == a && Resolving(s.tasks[u].pc);
      if s'.calls != s.calls { AloneWhileAbsent(s, a, t, u); }
      assert a !in s'.rows ==> s'.tasks[u].authority == a && Resolving(s'.tasks[u].pc);
    } else if s'.calls != s.calls {
      assert Resolving(s'.tasks[t].pc);
    }
  }

  /** The tasks of `a` before number `n` have returned. */
  predicate QuietBefore(s: State, a: string, n: nat) {
    forall t :: 0 <= t < |s.tasks| && t < n && s.tasks[t].authority == a ==> s.tasks[t].pc.Done?
  }

  lemma QuietBeforeStep(s: State, ev: Event, a: string, n: nat)
    requires QuietBefore(s, a, n) && n <= |s.tasks| && Enabled(s, ev)
    ensures QuietBefore(Step(s, ev), a, n) && |Step(s, ev).tasks| >= |s.tasks|
  {
    if ev.Act? { OneTaskMoves(s, ev.task, ev.action); }
  }

  lemma {:induction false} FlightAlways(s: State, evs: seq<Event>, a: string, c: nat)
    requires Shared(s, a) && CalledOnce(s, a, c) && Runs(s, evs) && GentleFor(s, evs, a)
    ensures Shared(After(s, evs), a) && CalledOnce(After(s, evs), a, c)
    decreases |evs|
  {
    if evs != [] {
      SharedStep(s, evs[0], a);
      CalledOnceStep(s, evs[0], a, c);
      FlightAlways(Step(s, evs[0]), evs[1..], a, c);
    }
  }

  lemma {:induction false} OutcomesAlways(s: State, evs: seq<Event>, a: string, n: nat)
    requires Shared(s, a) && Outcomes(s, a, n) && QuietBefore(s, a, n) && n <= |s.tasks|
    requires Runs(s, evs) && CleanFor(s, evs, a)
    ensures Outcomes(After(s, evs), a, n)
    decreases |evs|
  {
    if evs != [] {
      SharedStep(s, evs[0], a);
      OutcomesStep(s, evs[0], a, n);
      QuietBeforeStep(s, evs[0], a, n);
      OutcomesAlways(Step(s, evs[0]), evs[1..], a, n);
    }
  }

  lemma ReachableLocks(s: State, past: seq<Event>)
    requires Initial(s) && Runs(s, past)
    ensures LocksHeld(After(s, past))
  {
    LocksHeldAlways(s, past);
  }

  /** Single flight, for one authority at a time: whatever happened before, and whatever happens to
      other authorities, once all tasks of `a` have returned, any run that is gentle for `a` calls
      its resolver at most once, and not at all if there is a row. If the run is clean for `a`, all
      its finished tasks return the same outcome: they serve the stored row. */
  lemma SingleFlightTheorem(s0: State, past: seq<Event>, evs: seq<Event>, a: string)
    requires Initial(s0) && Runs(s0, past) && Quiet(After(s0, past), a)
    requires Runs(After(s0, past), evs) && GentleFor(After(s0, past), evs, a)
    ensures var (s, f) := (After(s0, past), After(After(s0, past), evs));
            && CallsFor(f.calls, a) <= CallsFor(s.calls, a) + 1
            && (a in s.rows ==> CallsFor(f.calls, a) == CallsFor(s.calls, a))
            && (CleanFor(s, evs, a) ==> SameOutcomes(f, a, |s.tasks|) && Outcomes(f, a, |s.tasks|))
  {
    var s := After(s0, past);
    ReachableLocks(s0, past);
    FlightAlways(s, evs, a, CallsFor(s.calls, a));
    if a in s.rows { NoCallWhenStored(s, evs, a); }
    if CleanFor(s, evs, a) { OutcomesAlways(s, evs, a, |s.tasks|); }
  }

  /** The finished tasks of `a` from number `n` on return the same outcome. */
  predicate SameOutcomes(s: State, a: string, n: nat) {
    forall t, u ::
      n <= t < |s.tasks| && n <= u < |s.tasks| && s.tasks[t].authority == a && s.tasks[u].authority == a
      && s.tasks[t].pc.Done? && s.tasks[u].pc.Done? ==>
        s.tasks[t].pc.outcome == s.tasks[u].pc.outcome
  }

  lemma {:induction false} NoCallWhenStored(s: State, evs: seq<Event>, a: string)
    requires a in s.rows && Runs(s, evs) && GentleFor(s, evs, a)
    ensures CallsFor(After(s, evs).calls, a) == CallsFor(s.calls, a)
    decreases |evs|
  {
    if evs != [] {
      if Concerns(s, evs[0], a) {
        if evs[0].Act? { CallsGrow(s, evs[0].task, evs[0].action); }
      } else {
        OthersDoNotTouch(s, evs[0], a);
      }
      NoCallWhenStored(Step(s, evs[0]), evs[1..], a);
    }
  }

  // ----- progress -----

  /** The task that can move when `t` cannot: the holder of the lock it waits for. */
  function Mover(s: State, t: nat): nat
    requires t < |s.tasks|
  {
    var pc := s.tasks[t].pc;
    if pc.Waiting? && pc.lock in s.holder then s.holder[pc.lock] else t
  }

  /** The next event of a task when nothing fails. */
  function NextEvent(s: State, t: nat): Event
    requires t < |s.tasks|
  {
    match s.tasks[t].pc
    case Lookup => Act(t, LookupOk)
    case Register => Act(t, Enter)
    case Waiting(_) => Act(t, Acquire)
    case Recheck(_) => Act(t, LookupOk)
    case Resolve(_) => Act(t, Resolved(Definitive(KnownMissing)))
    case Put(_, _) => Act(t, PutOk)
    case Unregister(_, _) => Act(t, Remove)
    case Release(_, _) => Act(t, Drop)
    case Done(_) => Arrive("")
  }

  /** No run deadlocks: after any events, failing ones included, an unfinished task means that
      some task can take a clean step. */
  lemma {:induction false} NoDeadlock(s: State, evs: seq<Event>, t: nat)
    requires Initial(s) && Runs(s, evs)
    requires t < |After(s, evs).tasks| && !After(s, evs).tasks[t].pc.Done?
    ensures var f := After(s, evs);
            var m := Mover(f, t);
            && m < |f.tasks| && !f.tasks[m].pc.Done? && Enabled(f, NextEvent(f, m)) && Clean(NextEvent(f, m))
            && NextEvent(f, m).Act? && NextEvent(f, m).task == m
  {
    LocksHeldAlways(s, evs);
  }

  function Remaining(tasks: seq<Task>): nat {
    if tasks == [] then 0
    else Remaining(tasks[..|tasks| - 1]) + 8 - Stage(tasks[|tasks| - 1].pc)
  }

  lemma {:induction false} RemainingDrops(tasks: seq<Task>, t: nat, task: Task)
    requires t < |tasks| && Stage(task.pc) > Stage(tasks[t].pc)
    ensures Remaining(tasks[t := task]) < Remaining(tasks)
  {
    var n := |tasks| - 1;
    if t == n {
      assert tasks[t := task][..n] == tasks[..n];
    } else {
      RemainingDrops(tasks[..n], t, task);
      assert tasks[t := task][..n] == tasks[..n][t := task];
    }
  }

  function TaskEvents(evs: seq<Event>): nat {
    if evs == [] then 0 else (if evs[0].Act? then 1 else 0) + TaskEvents(evs[1..])
  }

  /** Every run is short: a task takes at most eight steps, whatever the interleaving. */
  lemma {:induction false} StepsAreBounded(s: State, evs: seq<Event>)
    requires Runs(s, evs)
    ensures |After(s, evs).tasks| >= |s.tasks|
    ensures TaskEvents(evs) <= Remaining(s.tasks) + 8 * (|After(s, evs).tasks| - |s.tasks|)
    decreases |evs|
  {
    if evs != [] {
      var s' := Step(s, evs[0]);
      StepsAreBounded(s', evs[1..]);
      if evs[0].Arrive? {
        assert s'.tasks[..|s.tasks|] == s.tasks;
      } else if evs[0].Act? {
        OneTaskMoves(s, evs[0].task, evs[0].action);
        RemainingDrops(s.tasks, evs[0].task, s'.tasks[evs[0].task]);
      }
    }
  }

  // ----- building runs -----

  const EMPTY: State := State([], map[], map[], map[], 0, [])

  lemma {:induction false} Extend(s: State, evs: seq<Event>, ev: Event)
    requires Runs(s, evs) && Enabled(After(s, evs), ev)
    ensures Runs(s, evs + [ev]) && After(s, evs + [ev]) == Step(After(s, evs), ev)
    decreases |evs|
  {
    if evs == [] {
      assert evs + [ev] == [ev];
    } else {
      Extend(Step(s, evs[0]), evs[1..], ev);
      assert (evs + [ev])[1..] == evs[1..] + [ev];
    }
  }

  lemma {:induction false} ExtendClean(s: State, evs: seq<Event>, ev: Event, a: string)
    requires Runs(s, evs) && Enabled(After(s, evs), ev) && Runs(s, evs + [ev])
    requires CleanFor(s, evs, a) && (Concerns(After(s, evs), ev, a) ==> Clean(ev))
    ensures CleanFor(s, evs + [ev], a)
    decreases |evs|
  {
    if evs == [] {
      assert evs + [ev] == [ev];
    } else {
      Extend(Step(s, evs[0]), evs[1..], ev);
      assert (evs + [ev])[1..] == evs[1..] + [ev];
      ExtendClean(Step(s, evs[0]), evs[1..], ev, a);
    }
  }

  /** A run from `s` to `f` that is clean for `a`. */
  ghost predicate Leads(s: State, evs: seq<Event>, f: State, a: string) {
    Runs(s, evs) && CleanFor(s, evs, a) && After(s, evs) == f
  }

  lemma Then(s: State, evs: seq<Event>, f: State, ev: Event, a: string) returns (evs': seq<Event>, f': State)
    requires Leads(s, evs, f, a) && Enabled(f, ev) && Clean(ev)
    ensures f' == Step(f, ev) && Leads(s, evs', f', a)
  {
    Extend(s, evs, ev);
    ExtendClean(s, evs, ev, a);
    evs', f' := evs + [ev], Step(f, ev);
  }

  /** A new task that finds no row gets as far as asking for the lock map. */
  lemma ThenArrive(s: State, evs: seq<Event>, f: State, a: string) returns (evs': seq<Event>, f': State)
    requires Leads(s, evs, f, a) && a !in f.rows
    ensures Leads(s, evs', f', a) && f' == f.(tasks := f.tasks + [Task(a, Register)])
  {
    evs', f' := Then(s, evs, f, Arrive(a), a);
    evs', f' := Then(s, evs', f', Act(|f.tasks|, LookupOk), a);
    assert f'.tasks == f.tasks + [Task(a, Register)];
  }
}
