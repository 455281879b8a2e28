/**
 The counting semaphore of utils/semaphore.go, for any number of threads
 interleaved at each atomic operation.
 */
module Semaphore {

  /** Where a thread is in Acquire. */
  datatype Pc =
    | Outside    // not in Acquire
    | Spinning   // the first check of disposed has passed
    | Locked     // has the spinlock
    | Waiting    // has decremented the count
    | Blocked    // has seen a negative count
    | Granted    // has seen a count that is not negative, still has the spinlock
    | GivingUp   // has seen disposed while waiting
    | Restored   // has put the count back, still has the spinlock

  /** `held` counts the successful acquires that are not yet released. */
  datatype State = State(total: int, count: int, disposed: bool, spinlock: bool, pcs: map<nat, Pc>, held: nat)

  datatype Step =
    | Enter(tid: nat)
    | Spin(tid: nat)
    | Refuse(tid: nat)
    | Take(tid: nat)
    | Load(tid: nat)
    | Check(tid: nat)
    | Restore(tid: nat)
    | Unlock(tid: nat)
    | Release
    | Dispose

  function Init(total: int): State { State(total, total, false, false, map[], 0) }

  function At(s: State, tid: nat): Pc { if tid in s.pcs then s.pcs[tid] else Outside }

  function Go(s: State, tid: nat, pc: Pc): State { s.(pcs := s.pcs[tid := pc]) }

  /** One atomic operation. Release is only called for an acquire that has succeeded. */
  ghost predicate Next(s: State, step: Step, t: State) {
    match step
    case Enter(tid) => At(s, tid).Outside? && !s.disposed && t == Go(s, tid, Spinning)
    // the compare-and-swap, when it succeeds; when it fails nothing changes
    case Spin(tid) => At(s, tid).Spinning? && !s.spinlock && t == Go(s, tid, Locked).(spinlock := true)
    case Refuse(tid) => At(s, tid).Spinning? && s.disposed && t == Go(s, tid, Outside)
    case Take(tid) => At(s, tid).Locked? && t == Go(s, tid, Waiting).(count := s.count - 1)
    case Load(tid) =>
      && At(s, tid).Waiting?
      && t == if s.count < 0 then Go(s, tid, Blocked) else Go(s, tid, Granted).(held := s.held + 1)
    case Check(tid) => At(s, tid).Blocked? && t == Go(s, tid, if s.disposed then GivingUp else Waiting)
    case Restore(tid) => At(s, tid).GivingUp? && t == Go(s, tid, Restored).(count := s.count + 1)
    case Unlock(tid) =>
      (At(s, tid).Granted? || At(s, tid).Restored?) && t == Go(s, tid, Outside).(spinlock := false)
    case Release => s.held > 0 && t == s.(count := s.count + 1, held := s.held - 1)
    case Dispose => t == s.(disposed := true)
  }

  ghost predicate Run(total: int, states: seq<State>, steps: seq<Step>) {
    && |states| == |steps| + 1 && states[0] == Init(total)
    && forall i :: 0 <= i < |steps| ==> Next(states[i], steps[i], states[i + 1])
  }

  // ------------------------------------------------------------ invariant

  predicate Inside(pc: Pc) { !pc.Outside? && !pc.Spinning? }

  /** Has decremented the count without having been granted. */
  predicate Debtor(pc: Pc) { pc.Waiting? || pc.Blocked? || pc.GivingUp? }

  ghost predicate SomeDebtor(s: State) { exists t :: Debtor(At(s, t)) }

  function Capacity(total: int): nat { if total < 0 then 0 else total }

  ghost predicate Inv(s: State) {
    // mutual exclusion
    && (forall a, b :: Inside(At(s, a)) && Inside(At(s, b)) ==> a == b)
    && (s.spinlock <==> exists a :: Inside(At(s, a)))
    // the count
    && s.count == s.total - s.held - (if SomeDebtor(s) then 1 else 0)
    && s.held <= Capacity(s.total)
  }

  lemma Others(s: State, tid: nat, pc: Pc, x: nat)
    ensures At(Go(s, tid, pc), x) == if x == tid then pc else At(s, x)
  {
  }

  /** A thread's move inside the critical section keeps mutual exclusion and tells who is in debt. */
  lemma Move(s: State, tid: nat, pc: Pc)
    requires Inv(s) && Inside(At(s, tid)) && Inside(pc)
    ensures forall a, b :: Inside(At(Go(s, tid, pc), a)) && Inside(At(Go(s, tid, pc), b)) ==> a == b
    ensures exists a :: Inside(At(Go(s, tid, pc), a))
    ensures SomeDebtor(Go(s, tid, pc)) <==> Debtor(pc)
    ensures SomeDebtor(s) <==> Debtor(At(s, tid))
  {
    forall x ensures At(Go(s, tid, pc), x) == if x == tid then pc else At(s, x) { Others(s, tid, pc, x); }
    assert Inside(At(Go(s, tid, pc), tid));
  }

  lemma StepInv(s: State, step: Step, t: State)
    requires Inv(s) && Next(s, step, t)
    ensures Inv(t)
  {
    match step {
      case Take(tid) => InsideInv(s, tid, Waiting, t);
      case Load(tid) => InsideInv(s, tid, if s.count < 0 then Blocked else Granted, t);
      case Check(tid) => InsideInv(s, tid, if s.disposed then GivingUp else Waiting, t);
      case Restore(tid) => InsideInv(s, tid, Restored, t);
      case Enter(tid) => EdgeInv(s, step, tid, t);
      case Spin(tid) => EdgeInv(s, step, tid, t);
      case Refuse(tid) => EdgeInv(s, step, tid, t);
      case Unlock(tid) => EdgeInv(s, step, tid, t);
      case Release => assert forall x :: At(t, x) == At(s, x);
      case Dispose => assert forall x :: At(t, x) == At(s, x);
    }
  }

  /** A step inside the critical section: the count follows the debt and the permits. */
  lemma InsideInv(s: State, tid: nat, pc: Pc, t: State)
    requires Inv(s) && Inside(At(s, tid)) && Inside(pc)
    requires t == Go(s, tid, pc).(count := t.count, held := t.held)
    requires t.count + t.held + (if Debtor(pc) then 1 else 0)
          == s.count + s.held + (if Debtor(At(s, tid)) then 1 else 0)
    requires t.held == s.held || t.count >= 0
    ensures Inv(t)
  {
    Move(s, tid, pc);
    assert forall x :: At(t, x) == At(Go(s, tid, pc), x);
    assert SomeDebtor(t) <==> SomeDebtor(Go(s, tid, pc));
  }

  /** Entering and leaving: the thread is in debt neither before nor after. */
  lemma EdgeInv(s: State, step: Step, tid: nat, t: State)
    requires Inv(s) && Next(s, step, t)
    requires step == Enter(tid) || step == Spin(tid) || step == Refuse(tid) || step == Unlock(tid)
    ensures Inv(t)
  {
    forall x ensures x != tid ==> At(t, x) == At(s, x) { }
    assert !Debtor(At(s, tid)) && !Debtor(At(t, tid));
    assert SomeDebtor(t) <==> SomeDebtor(s) by {
      if SomeDebtor(s) { var x :| Debtor(At(s, x)); assert x != tid && Debtor(At(t, x)); }
      if SomeDebtor(t) { var x :| Debtor(At(t, x)); assert x != tid && Debtor(At(s, x)); }
    }
    assert t.spinlock <==> exists a :: Inside(At(t, a)) by {
      if step.Spin? {
        assert Inside(At(t, tid));
      } else if !step.Unlock? {
        if s.spinlock { var a :| Inside(At(s, a)); assert Inside(At(t, a)); }
      }
    }
  }

  lemma InitInv(total: int)
    ensures Inv(Init(total))
  {
  }

  lemma {:induction false} RunInv(total: int, states: seq<State>, steps: seq<Step>, i: nat)
    requires Run(total, states, steps) && i < |states|
    ensures Inv(states[i]) && states[i].total == total
  {
    if i == 0 {
    } else {
      RunInv(total, states, steps, i - 1);
      StepInv(states[i - 1], steps[i - 1], states[i]);
    }
  }

  // ------------------------------------------------------------ guarantees

  /** In every interleaving the permits held never exceed the total, and the count tells them, less one waiter. */
  lemma PermitsBounded(total: int, states: seq<State>, steps: seq<Step>, i: nat)
    requires Run(total, states, steps) && i < |states|
    ensures states[i].held <= Capacity(total)
    ensures states[i].count == total - states[i].held - (if SomeDebtor(states[i]) then 1 else 0)
    ensures forall a, b :: Debtor(At(states[i], a)) && Debtor(At(states[i], b)) ==> a == b
  {
    RunInv(total, states, steps, i);
  }

  /** A permit is granted only when one is free: the semaphore refines a plain counter of permits. */
  lemma GrantsOnlyFree(total: int, states: seq<State>, steps: seq<Step>, i: nat)
    requires Run(total, states, steps) && i < |steps|
    ensures states[i + 1].held == states[i].held
         || (states[i + 1].held == states[i].held + 1 && states[i].held < Capacity(total))
         || (states[i + 1].held == states[i].held - 1 && steps[i].Release?)
  {
    RunInv(total, states, steps, i);
    RunInv(total, states, steps, i + 1);
    assert Next(states[i], steps[i], states[i + 1]);
  }
}
