/**
 The shared mutex of the library: a robust, process-shared pthread mutex, the routines that lock
 and unlock it, and the health check built from them.

 The mutex follows IEEE Std 1003.1-2017 XSH, section 2.9.3 and the pthread_mutex_lock page.
 Processes take steps in any order and may die between any two of them; a routine that makes
 several pthread calls is several steps.  A process that locks a mutex it already owns blocks.
 */
module RobustMutex {
  import opened Options

  type Pid = nat

  /** `owner` may be dead; `inconsistent` is set for an owner who was told its predecessor died
      and has not yet repaired the mutex; `broken` is the unrecoverable state. */
  datatype Mutex = Mutex(owner: Option<Pid>, inconsistent: bool, broken: bool)

  datatype Code = OK | EBUSY | EPERM | ETIMEDOUT | EOWNERDEAD | ENOTRECOVERABLE

  datatype Routine = VtpLock | VtpTryLock | VtpTimedLock | VtpUnlock | VtpCheckHealth

  /** Where a process is: outside, blocked in a pthread call, told of an owner's death and about to
      repair, or at one of the health check's own calls. */
  datatype Place =
    | Idle
    | Blocked(routine: Routine)
    | Repairing(routine: Routine)
    | HealthUnlocking(acquired: bool)
    | HealthTiming
    | HealthReinit

  /** `holds`: a lock call has returned OK and no unlock has since.  `last` is the routine that
      returned last and its result. */
  datatype Process = Process(alive: bool, place: Place, holds: bool, last: Option<(Routine, Code)>)

  datatype State = State(mutex: Mutex, procs: seq<Process>)

  datatype Step =
    | Lock(p: Pid)
    | TryLock(p: Pid)
    | TimedLock(p: Pid)
    | Unlock(p: Pid)
    | CheckHealth(p: Pid)
    | Wake(p: Pid)
    | Timeout(p: Pid)
    | Repair(p: Pid)
    | HealthUnlock(p: Pid)
    | HealthTimedLock(p: Pid)
    | Reinit(p: Pid)
    | Die(p: Pid)

  // ---------------------------------------------------------------- pthread

  predicate Alive(procs: seq<Process>, p: Pid) {
    p < |procs| && procs[p].alive
  }

  /** An attempt by `p` to take the mutex. */
  function Attempt(s: State, p: Pid): (Mutex, Code) {
    var m := s.mutex;
    if m.broken then (m, ENOTRECOVERABLE)
    else if m.owner.None? then (m.(owner := Some(p)), OK)
    else if Alive(s.procs, m.owner.value) then (m, EBUSY)
    else (m.(owner := Some(p), inconsistent := true), EOWNERDEAD)
  }

  /** Unlocking an inconsistent mutex makes it unrecoverable. */
  function Release(m: Mutex, p: Pid): (Mutex, Code) {
    if m.owner != Some(p) then (m, EPERM)
    else (Mutex(None, false, m.broken || m.inconsistent), OK)
  }

  function MakeConsistent(m: Mutex, p: Pid): Mutex {
    if m.owner == Some(p) then m.(inconsistent := false) else m
  }

  // ---------------------------------------------------------------- the routines

  function Set(s: State, m: Mutex, p: Pid, q: Process): State
    requires p < |s.procs|
  {
    State(m, s.procs[p := q])
  }

  function Returned(q: Process, routine: Routine, code: Code): Process {
    q.(place := Idle, last := Some((routine, code)))
  }

  /** What follows a pthread lock call that came back: OK, EOWNERDEAD and a repair, or an error. */
  function AfterAttempt(s: State, p: Pid, routine: Routine): State
    requires p < |s.procs|
  {
    var (m, code) := Attempt(s, p);
    var q := s.procs[p];
    Set(s, m, p,
        if code == OK then
          if routine.VtpCheckHealth? then q.(holds := true, place := HealthUnlocking(true))
          else Returned(q.(holds := true), routine, OK)
        else if code == EOWNERDEAD then q.(place := Repairing(routine))
        else Returned(q, routine, code))
  }

  /** One step, or None when it cannot be taken. */
  function Next(s: State, step: Step): Option<State> {
    var p := step.p;
    if !Alive(s.procs, p) then None
    else
      var q := s.procs[p];
      var busy := Attempt(s, p).1 == EBUSY;
      match step
      case Lock(_) =>
        if !q.place.Idle? then None
        else if busy then Some(Set(s, s.mutex, p, q.(place := Blocked(VtpLock))))
        else Some(AfterAttempt(s, p, VtpLock))
      case TryLock(_) =>
        if !q.place.Idle? then None else Some(AfterAttempt(s, p, VtpTryLock))
      case TimedLock(_) =>
        if !q.place.Idle? then None
        else if busy then Some(Set(s, s.mutex, p, q.(place := Blocked(VtpTimedLock))))
        else Some(AfterAttempt(s, p, VtpTimedLock))
      case Unlock(_) =>
        if !q.place.Idle? then None
        else
          var (m, code) := Release(s.mutex, p);
          Some(Set(s, m, p, Returned(if code == OK then q.(holds := false) else q, VtpUnlock, code)))
      case CheckHealth(_) =>
        if !q.place.Idle? then None
        else if busy then Some(Set(s, s.mutex, p, q.(place := HealthUnlocking(false))))
        else Some(AfterAttempt(s, p, VtpCheckHealth))
      case Wake(_) =>
        if !q.place.Blocked? || busy then None else Some(AfterAttempt(s, p, q.place.routine))
      case Timeout(_) =>
        if q.place == Blocked(VtpTimedLock) then Some(Set(s, s.mutex, p, Returned(q, VtpTimedLock, ETIMEDOUT)))
        else if q.place == Blocked(VtpCheckHealth) then Some(Set(s, s.mutex, p, q.(place := HealthReinit)))
        else None
      case Repair(_) =>
        if !q.place.Repairing? then None
        else
          var held := q.(holds := true);
          Some(Set(s, MakeConsistent(s.mutex, p), p,
                   if q.place.routine.VtpCheckHealth? then held.(place := HealthUnlocking(true))
                   else Returned(held, q.place.routine, OK)))
      case HealthUnlock(_) =>
        if !q.place.HealthUnlocking? then None
        else
          var (m, code) := Release(s.mutex, p);
          Some(Set(s, m, p,
                   if code == OK then Returned(q.(holds := false), VtpCheckHealth, OK)
                   else if q.place.acquired then Returned(q, VtpCheckHealth, code)
                   else q.(place := HealthTiming)))
      case HealthTimedLock(_) =>
        if !q.place.HealthTiming? then None
        else if busy then Some(Set(s, s.mutex, p, q.(place := Blocked(VtpCheckHealth))))
        else Some(AfterAttempt(s, p, VtpCheckHealth))
      case Reinit(_) =>
        if !q.place.HealthReinit? then None
        else Some(Set(s, Mutex(None, false, false), p, Returned(q, VtpCheckHealth, OK)))
      case Die(_) =>
        Some(Set(s, s.mutex, p, q.(alive := false)))
  }

  /** A fresh mutex and any number of live processes outside every routine. */
  ghost predicate Initial(s: State) {
    && s.mutex == Mutex(None, false, false)
    && forall p :: 0 <= p < |s.procs| ==> s.procs[p].alive && s.procs[p].place.Idle? && !s.procs[p].holds
  }

  /** The state after `steps`, in order, or None when one of them could not be taken. */
  function Run(start: State, steps: seq<Step>): Option<State>
    decreases |steps|
  {
    if steps == [] then Some(start)
    else
      match Run(start, steps[..|steps| - 1])
      case None => None
      case Some(before) => Next(before, steps[|steps| - 1])
  }

  ghost predicate Reaches(start: State, steps: seq<Step>, s: State) {
    Run(start, steps) == Some(s)
  }

  predicate NoReinit(steps: seq<Step>) {
    forall i :: 0 <= i < |steps| ==> !steps[i].Reinit?
  }

  // ---------------------------------------------------------------- safety

  /** What a live process's place and belief say about the mutex. */
  ghost predicate Agrees(m: Mutex, p: Pid, q: Process) {
    q.alive ==>
      && (q.holds ==> m.owner == Some(p) && !m.inconsistent && !q.place.Repairing?)
      && (m.owner == Some(p) ==> q.holds || q.place.Repairing?)
      && (q.place.Repairing? ==> m.owner == Some(p) && m.inconsistent)
      && (q.place.Repairing? || q.place.Blocked? ==> q.place.routine != VtpUnlock)
      && (q.place == HealthUnlocking(true) ==> q.holds)
      && (q.place.HealthTiming? || q.place == Blocked(VtpCheckHealth) || q.place.HealthReinit? ==> !q.holds)
  }

  ghost predicate Inv(s: State) {
    && !s.mutex.broken
    && (s.mutex.owner.None? ==> !s.mutex.inconsistent)
    && (s.mutex.owner.Some? ==> s.mutex.owner.value < |s.procs|)
    && forall p :: 0 <= p < |s.procs| ==> Agrees(s.mutex, p, s.procs[p])
  }

  lemma InitialInv(s: State)
    requires Initial(s)
    ensures Inv(s)
  {
  }

  lemma StepInv(s: State, step: Step)
    requires Inv(s) && !step.Reinit? && Next(s, step).Some?
    ensures Inv(Next(s, step).value)
  {
    var p := step.p;
    var t := Next(s, step).value;
    assert Agrees(s.mutex, p, s.procs[p]);
    assert Agrees(t.mutex, p, t.procs[p]);
    forall q | 0 <= q < |t.procs| && q != p ensures Agrees(t.mutex, q, t.procs[q]) {
      assert Agrees(s.mutex, q, s.procs[q]);
    }
  }

  lemma {:induction false} InvFrom(start: State, steps: seq<Step>, s: State)
    requires Inv(start) && Reaches(start, steps, s) && NoReinit(steps)
    ensures Inv(s)
    decreases |steps|
  {
    if steps != [] {
      var init, last := steps[..|steps| - 1], steps[|steps| - 1];
      var before := Run(start, init).value;
      InvFrom(start, init, before);
      StepInv(before, last);
    }
  }

  lemma ReachableInv(start: State, steps: seq<Step>, s: State)
    requires Initial(start) && Reaches(start, steps, s) && NoReinit(steps)
    ensures Inv(s)
  {
    InitialInv(start);
    InvFrom(start, steps, s);
  }

  /** At most one live process holds the lock. */
  ghost predicate Exclusive(s: State) {
    forall p, q | 0 <= p < |s.procs| && 0 <= q < |s.procs| :: Holder(s.procs[p]) && Holder(s.procs[q]) ==> p == q
  }

  predicate Holder(q: Process) {
    q.alive && q.holds
  }

  lemma InvExclusive(s: State)
    requires Inv(s)
    ensures Exclusive(s) && !s.mutex.broken
  {
    forall p, q | 0 <= p < |s.procs| && 0 <= q < |s.procs| && Holder(s.procs[p]) && Holder(s.procs[q])
      ensures p == q
    {
      assert Agrees(s.mutex, p, s.procs[p]) && Agrees(s.mutex, q, s.procs[q]);
    }
  }

  /** Over every interleaving of locking, unlocking, health checks and deaths without
      re-initialisation: mutual exclusion, and the mutex is never unrecoverable. */
  lemma MutualExclusion(start: State, steps: seq<Step>, s: State)
    requires Initial(start) && Reaches(start, steps, s) && NoReinit(steps)
    ensures Exclusive(s) && !s.mutex.broken
  {
    ReachableInv(start, steps, s);
    InvExclusive(s);
  }

  /** The step makes routine `r` return `code` to the process that takes it. */
  ghost predicate Returns(s: State, step: Step, r: Routine, code: Code) {
    && Next(s, step).Some? && !step.Die?
    && var q := Next(s, step).value.procs[step.p];
       q.place.Idle? && q.last == Some((r, code))
  }

  /** What a return of `code` from `r` promises `p`, with the mutex and the process as they are left. */
  ghost predicate Promised(m: Mutex, p: Pid, q: Process, r: Routine, code: Code) {
    && (code == OK && (r.VtpLock? || r.VtpTryLock? || r.VtpTimedLock?) ==>
          m == Mutex(Some(p), false, false) && q.holds)
    && (code == OK && (r.VtpUnlock? || r.VtpCheckHealth?) ==> m.owner != Some(p) && !q.holds)
    && code != EOWNERDEAD && code != ENOTRECOVERABLE
  }

  lemma StepPromises(s: State, step: Step, r: Routine, code: Code)
    requires Inv(s) && !step.Reinit? && Returns(s, step, r, code)
    ensures var t := Next(s, step).value; Promised(t.mutex, step.p, t.procs[step.p], r, code)
  {
    assert Agrees(s.mutex, step.p, s.procs[step.p]);
  }

  /** A lock routine that returns OK, after an owner's death or not, leaves the mutex consistent and
      owned by its caller; an unlock or a health check that returns OK leaves the caller without
      it; and no routine ever returns EOWNERDEAD or ENOTRECOVERABLE. */
  lemma ReturnsRight(start: State, steps: seq<Step>, s: State, step: Step, r: Routine, code: Code)
    requires Initial(start) && Reaches(start, steps, s) && NoReinit(steps)
    requires !step.Reinit? && Returns(s, step, r, code)
    ensures var t := Next(s, step).value; Promised(t.mutex, step.p, t.procs[step.p], r, code)
  {
    ReachableInv(start, steps, s);
    StepPromises(s, step, r, code);
  }

  /** The owner is dead, so whoever tries next is told. */
  predicate Orphaned(s: State) {
    s.mutex.owner.Some? && !Alive(s.procs, s.mutex.owner.value)
  }

  /** A step by which `p` tries for the mutex: one of the three lock routines, or waking from one. */
  predicate Tries(s: State, step: Step, routine: Routine) {
    && Alive(s.procs, step.p)
    && match routine
       case VtpLock => (step.Lock? && s.procs[step.p].place.Idle?) || Wakes(s, step, VtpLock)
       case VtpTimedLock => (step.TimedLock? && s.procs[step.p].place.Idle?) || Wakes(s, step, VtpTimedLock)
       case VtpTryLock => step.TryLock? && s.procs[step.p].place.Idle?
       case _ => false
  }

  predicate Wakes(s: State, step: Step, routine: Routine)
    requires Alive(s.procs, step.p)
  {
    step.Wake? && s.procs[step.p].place == Blocked(routine)
  }

  /** Death of the owner does not lose the lock: the next live process to try for it, by any lock
      routine or by waking in one it was blocked in, gets it in two steps. */
  lemma DeathRecovered(start: State, steps: seq<Step>, s: State, step: Step, routine: Routine)
    requires Initial(start) && Reaches(start, steps, s) && NoReinit(steps)
    requires Orphaned(s) && Tries(s, step, routine)
    ensures var p, told := step.p, Next(s, step);
            && told.Some? && told.value.procs[p].place == Repairing(routine)
            && Returns(told.value, Repair(p), routine, OK)
            && Next(told.value, Repair(p)).value.mutex == Mutex(Some(p), false, false)
            && Holder(Next(told.value, Repair(p)).value.procs[p])
  {
    ReachableInv(start, steps, s);
    assert Agrees(s.mutex, step.p, s.procs[step.p]);
  }

  // ---------------------------------------------------------------- re-initialisation

  /** No live process owns the mutex, not even one that has yet to repair it. */
  predicate Unowned(s: State) {
    s.mutex.owner.Some? ==> !Alive(s.procs, s.mutex.owner.value)
  }

  /** A fresh mutex keeps the books right if nobody alive had the old one. */
  lemma ReinitInv(s: State, p: Pid)
    requires Inv(s) && Alive(s.procs, p) && s.procs[p].place.HealthReinit? && Unowned(s)
    ensures Inv(Next(s, Reinit(p)).value)
  {
    var t := Next(s, Reinit(p)).value;
    forall q | 0 <= q < |t.procs| ensures Agrees(t.mutex, q, t.procs[q]) {
      assert Agrees(s.mutex, q, s.procs[q]);
    }
  }

  /** What breaks exclusion otherwise: the checker locks the fresh mutex, and an owner that was about
      to repair the old one carries on. */
  function Intrusion(s: State, p: Pid): seq<Step>
    requires s.mutex.owner.Some? && Alive(s.procs, s.mutex.owner.value)
  {
    var h := s.mutex.owner.value;
    [TryLock(p)] + if s.procs[h].place.Repairing? then [Repair(h)] else []
  }

  lemma TwoSteps(s: State, a: Step, b: Step)
    requires Next(s, a).Some?
    ensures Run(s, [a]) == Next(s, a) && Run(s, [a, b]) == Next(Next(s, a).value, b)
  {
    assert [a][..0] == [] && [a, b][..1] == [a];
  }

  lemma IntrusionBreaks(s: State, p: Pid)
    requires Inv(s) && Alive(s.procs, p) && s.procs[p].place.HealthReinit? && !Unowned(s)
    ensures var t := Run(Next(s, Reinit(p)).value, Intrusion(s, p));
            t.Some? && !Exclusive(t.value) && NoReinit(Intrusion(s, p))
  {
    var h := s.mutex.owner.value;
    assert Agrees(s.mutex, p, s.procs[p]) && Agrees(s.mutex, h, s.procs[h]);
    var anew := Next(s, Reinit(p)).value;
    TwoSteps(anew, TryLock(p), Repair(h));
    assert [TryLock(p)] + [Repair(h)] == [TryLock(p), Repair(h)] && [TryLock(p)] + [] == [TryLock(p)];
    var t := Run(anew, Intrusion(s, p)).value;
    assert Holder(t.procs[p]) && Holder(t.procs[h]) && p != h;
  }

  /** Exclusion holds in every state that steps without another re-initialisation lead to. */
  ghost predicate AlwaysExclusive(s: State) {
    forall steps, t :: NoReinit(steps) && Reaches(s, steps, t) ==> Exclusive(t)
  }

  /** The health check's last resort, re-initialising a mutex it could not get in time: exclusion
      survives it for good if and only if no live process owned the old mutex. */
  lemma ReinitIff(start: State, steps: seq<Step>, s: State, p: Pid)
    requires Initial(start) && Reaches(start, steps, s) && NoReinit(steps)
    requires Alive(s.procs, p) && s.procs[p].place.HealthReinit?
    ensures Next(s, Reinit(p)).Some?
    ensures AlwaysExclusive(Next(s, Reinit(p)).value) <==> Unowned(s)
  {
    ReachableInv(start, steps, s);
    var anew := Next(s, Reinit(p)).value;
    if Unowned(s) {
      ReinitInv(s, p);
      forall more, t | NoReinit(more) && Reaches(anew, more, t) ensures Exclusive(t) {
        InvFrom(anew, more, t);
        InvExclusive(t);
      }
    } else {
      IntrusionBreaks(s, p);
      assert Reaches(anew, Intrusion(s, p), Run(anew, Intrusion(s, p)).value);
    }
  }

  const IDLE: Process := Process(true, Idle, false, None)
  const FRESH: Mutex := Mutex(None, false, false)

  /** Process 1 times out on 0, which dies; 2 is told and has not repaired the mutex yet. */
  const BEFORE_REINIT: seq<Step> :=
    [Lock(0), CheckHealth(1), HealthUnlock(1), HealthTimedLock(1), Timeout(1), Die(0), TryLock(2)]

  const UNDER_REPAIR: State :=
    State(Mutex(Some(2), true, false),
          [Process(false, Idle, true, Some((VtpLock, OK))), IDLE.(place := HealthReinit),
           IDLE.(place := Repairing(VtpTryLock)), IDLE])

  lemma OneMoreStep(s: State, init: seq<Step>, t: State, last: Step, u: State)
    requires Run(s, init) == Some(t) && Next(t, last).Some?
    requires Next(t, last).value.mutex == u.mutex && |Next(t, last).value.procs| == |u.procs|
    requires forall q :: 0 <= q < |u.procs| ==> Next(t, last).value.procs[q] == u.procs[q]
    ensures Run(s, init + [last]) == Some(u)
  {
    assert (init + [last])[..|init|] == init;
    assert Next(t, last).value.procs == u.procs;
  }

  const ALL_IDLE: State := State(FRESH, [IDLE, IDLE, IDLE, IDLE])

  /** Process 0 holds the lock, or dies holding it, and 1 is at `place`. */
  function Checked(alive: bool, place: Place): State {
    State(Mutex(Some(0), false, false),
          [Process(alive, Idle, true, Some((VtpLock, OK))), IDLE.(place := place), IDLE, IDLE])
  }

  lemma UpToUnlock()
    ensures Run(ALL_IDLE, BEFORE_REINIT[..2]) == Some(Checked(true, HealthUnlocking(false)))
  {
    var b1 := [] + [Lock(0)];
    OneMoreStep(ALL_IDLE, [], ALL_IDLE, Lock(0), Checked(true, Idle));
    OneMoreStep(ALL_IDLE, b1, Checked(true, Idle), CheckHealth(1), Checked(true, HealthUnlocking(false)));
    assert b1 + [CheckHealth(1)] == BEFORE_REINIT[..2];
  }

  lemma UpToTimeout()
    ensures Run(ALL_IDLE, BEFORE_REINIT[..4]) == Some(Checked(true, Blocked(VtpCheckHealth)))
  {
    UpToUnlock();
    var b2 := BEFORE_REINIT[..2];
    var b3 := b2 + [HealthUnlock(1)];
    OneMoreStep(ALL_IDLE, b2, Checked(true, HealthUnlocking(false)), HealthUnlock(1), Checked(true, HealthTiming));
    OneMoreStep(ALL_IDLE, b3, Checked(true, HealthTiming), HealthTimedLock(1),
                Checked(true, Blocked(VtpCheckHealth)));
    assert b3 + [HealthTimedLock(1)] == BEFORE_REINIT[..4];
  }

  lemma UpToDeath()
    ensures Run(ALL_IDLE, BEFORE_REINIT[..6]) == Some(Checked(false, HealthReinit))
  {
    UpToTimeout();
    var b4 := BEFORE_REINIT[..4];
    var b5 := b4 + [Timeout(1)];
    OneMoreStep(ALL_IDLE, b4, Checked(true, Blocked(VtpCheckHealth)), Timeout(1), Checked(true, HealthReinit));
    OneMoreStep(ALL_IDLE, b5, Checked(true, HealthReinit), Die(0), Checked(false, HealthReinit));
    assert b5 + [Die(0)] == BEFORE_REINIT[..6];
  }

  lemma UpToRepair()
    ensures Run(ALL_IDLE, BEFORE_REINIT) == Some(UNDER_REPAIR)
  {
    UpToDeath();
    OneMoreStep(ALL_IDLE, BEFORE_REINIT[..6], Checked(false, HealthReinit), TryLock(2), UNDER_REPAIR);
    assert BEFORE_REINIT[..6] + [TryLock(2)] == BEFORE_REINIT;
  }

  /** The mutex is re-initialised, 3 locks it, and 2 finishes its repair. */
  lemma TwoHolders()
    ensures Next(UNDER_REPAIR, Reinit(1)).Some?
    ensures var t := Run(Next(UNDER_REPAIR, Reinit(1)).value, [TryLock(3), Repair(2)]);
            t.Some? && Holder(t.value.procs[2]) && Holder(t.value.procs[3])
  {
    TwoSteps(Next(UNDER_REPAIR, Reinit(1)).value, TryLock(3), Repair(2));
  }

  /** That no live process holds the lock is not enough: here none does, but one is about to repair
      the mutex, and two live processes come to hold the new one. */
  lemma ReinitUnderRepair()
    ensures Initial(ALL_IDLE) && NoReinit(BEFORE_REINIT)
    ensures Run(ALL_IDLE, BEFORE_REINIT) == Some(UNDER_REPAIR)
    ensures forall h :: 0 <= h < |UNDER_REPAIR.procs| ==> !Holder(UNDER_REPAIR.procs[h])
    ensures Next(UNDER_REPAIR, Reinit(1)).Some?
    ensures var t := Run(Next(UNDER_REPAIR, Reinit(1)).value, [TryLock(3), Repair(2)]);
            t.Some? && Holder(t.value.procs[2]) && Holder(t.value.procs[3])
  {
    UpToRepair();
    TwoHolders();
  }

  // ---------------------------------------------------------------- what each call answers

  /** A step of a process outside every routine. */
  predicate Free(s: State, p: Pid) {
    Alive(s.procs, p) && s.procs[p].place.Idle?
  }

  /** The mutex is held by another live process. */
  predicate HeldByOther(s: State, p: Pid) {
    s.mutex.owner.Some? && s.mutex.owner.value != p && Alive(s.procs, s.mutex.owner.value)
  }

  /** Unlocking: a holder's returns OK and leaves the mutex free and consistent; anyone else's returns EPERM
      and changes nothing. */
  lemma UnlockAnswers(start: State, steps: seq<Step>, s: State, p: Pid)
    requires Initial(start) && Reaches(start, steps, s) && NoReinit(steps) && Free(s, p)
    ensures Next(s, Unlock(p)).Some?
    ensures var t := Next(s, Unlock(p)).value;
            if s.procs[p].holds then
              Returns(s, Unlock(p), VtpUnlock, OK) && t.mutex == Mutex(None, false, false) && !t.procs[p].holds
            else
              Returns(s, Unlock(p), VtpUnlock, EPERM) && t.mutex == s.mutex && !t.procs[p].holds
  {
    ReachableInv(start, steps, s);
    assert Agrees(s.mutex, p, s.procs[p]);
  }

  /** The mutex is consistent and `p` has it. */
  predicate Holds(s: State, p: Pid) {
    s.mutex == Mutex(Some(p), false, false) && Alive(s.procs, p) && s.procs[p].holds
  }

  /** Locking a free mutex, by any of the three routines, takes it at once. */
  lemma FreeMutexTaken(start: State, steps: seq<Step>, s: State, p: Pid)
    requires Initial(start) && Reaches(start, steps, s) && NoReinit(steps) && Free(s, p) && s.mutex.owner.None?
    ensures Returns(s, Lock(p), VtpLock, OK) && Returns(s, TryLock(p), VtpTryLock, OK)
    ensures Returns(s, TimedLock(p), VtpTimedLock, OK)
    ensures Holds(Next(s, Lock(p)).value, p) && Holds(Next(s, TryLock(p)).value, p)
    ensures Holds(Next(s, TimedLock(p)).value, p)
  {
    ReachableInv(start, steps, s);
  }

  /** A mutex another live process has: lock blocks, try-lock returns EBUSY, timed-lock blocks and may
      return ETIMEDOUT; none of them touches the mutex. */
  lemma HeldMutexRefused(start: State, steps: seq<Step>, s: State, p: Pid)
    requires Initial(start) && Reaches(start, steps, s) && NoReinit(steps) && Free(s, p) && HeldByOther(s, p)
    ensures Next(s, Lock(p)).Some? && Next(s, Lock(p)).value.procs[p].place == Blocked(VtpLock)
    ensures Returns(s, TryLock(p), VtpTryLock, EBUSY)
    ensures Next(s, TimedLock(p)).Some? && Next(s, TimedLock(p)).value.procs[p].place == Blocked(VtpTimedLock)
    ensures Returns(Next(s, TimedLock(p)).value, Timeout(p), VtpTimedLock, ETIMEDOUT)
    ensures Next(s, Lock(p)).value.mutex == s.mutex && Next(s, TryLock(p)).value.mutex == s.mutex
    ensures Next(s, TimedLock(p)).value.mutex == s.mutex
  {
    ReachableInv(start, steps, s);
  }
}
