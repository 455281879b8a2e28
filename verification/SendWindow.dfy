/**
 The send window together with its semaphore (clients/relp.go, utils/semaphore.go):
 nothing but the semaphore's atomic count decides who may register.
 */
module SendWindow {
  import opened Bytes
  import S = Semaphore
  import W = Window

  datatype State = State(sem: S.State, win: W.State)

  /**
   An operation of the semaphore that grants and releases nothing, one of the
   window that takes and returns no permit, the load of the count that lets a
   thread go on with its transaction, and a release.
   */
  datatype Step =
    | Inside(sem: S.Step)
    | Outside(win: W.Step)
    | Obtain(tid: nat, txnr: int, uid: W.Uid)
    | GiveBack

  function Init(total: int): State { State(S.Init(total), W.Init(S.Capacity(total))) }

  function OneLess(n: nat): nat { if n == 0 then 0 else n - 1 }

  /** The window's bookkeeping when a permit comes; nothing here asks whether one is free. */
  function Granted(w: W.State, txnr: int, uid: W.Uid): W.State {
    w.(held := w.held + 1, granted := w.granted[txnr := uid], used := w.used + {txnr})
  }

  function Returned(w: W.State): W.State
    requires w.returning > 0
  {
    w.(returning := w.returning - 1, held := OneLess(w.held))
  }

  ghost predicate Next(pos: W.Positions, s: State, step: Step, t: State) {
    match step
    case Inside(x) => !x.Release? && S.Next(s.sem, x, t.sem) && t.sem.held == s.sem.held && t.win == s.win
    case Outside(x) => !x.Grant? && !x.Release? && W.Next(pos, s.win, x, t.win) && t.sem == s.sem
    case Obtain(tid, txnr, uid) =>
      && S.At(s.sem, tid).Waiting? && s.sem.count >= 0 && txnr !in s.win.used
      && t.sem == S.Go(s.sem, tid, S.Pc.Granted).(held := s.sem.held + 1)
      && t.win == Granted(s.win, txnr, uid)
    case GiveBack =>
      && s.win.returning > 0
      && t.sem == s.sem.(count := s.sem.count + 1, held := OneLess(s.sem.held))
      && t.win == Returned(s.win)
  }

  ghost predicate Run(pos: W.Positions, total: int, states: seq<State>, steps: seq<Step>) {
    && |states| == |steps| + 1 && states[0] == Init(total)
    && forall i :: 0 <= i < |steps| ==> Next(pos, states[i], steps[i], states[i + 1])
  }

  /** Both parts keep their invariants and count the same permits. */
  ghost predicate Inv(pos: W.Positions, total: int, s: State) {
    && S.Inv(s.sem) && W.Inv(pos, s.win) && s.sem.held == s.win.held
    && s.sem.total == total && s.win.total == S.Capacity(total)
  }

  /** A thread is let through only while a permit is free, so the window's step is one of its own. */
  lemma ObtainRefines(pos: W.Positions, total: int, s: State, step: Step, t: State)
    requires Inv(pos, total, s) && step.Obtain? && Next(pos, s, step, t)
    ensures S.Next(s.sem, S.Load(step.tid), t.sem) && W.Next(pos, s.win, W.Grant(step.txnr, step.uid), t.win)
  {
    S.StepInv(s.sem, S.Load(step.tid), t.sem);
  }

  lemma GiveBackRefines(pos: W.Positions, total: int, s: State, t: State)
    requires Inv(pos, total, s) && Next(pos, s, GiveBack, t)
    ensures S.Next(s.sem, S.Release, t.sem) && W.Next(pos, s.win, W.Release, t.win)
  {
    assert W.Accounted(s.win);
  }

  lemma StepInv(pos: W.Positions, total: int, s: State, step: Step, t: State)
    requires W.Injective(pos) && Inv(pos, total, s) && Next(pos, s, step, t)
    ensures Inv(pos, total, t)
  {
    match step {
      case Inside(x) => S.StepInv(s.sem, x, t.sem);
      case Outside(x) => OutsideInv(pos, s.win, x, t.win);
      case Obtain(tid, txnr, uid) =>
        ObtainRefines(pos, total, s, step, t);
        S.StepInv(s.sem, S.Load(tid), t.sem);
        W.StepInv(pos, s.win, W.Grant(txnr, uid), t.win);
      case GiveBack =>
        GiveBackRefines(pos, total, s, t);
        S.StepInv(s.sem, S.Release, t.sem);
        W.StepInv(pos, s.win, W.Release, t.win);
    }
  }

  lemma OutsideInv(pos: W.Positions, s: W.State, x: W.Step, t: W.State)
    requires W.Injective(pos) && W.Inv(pos, s) && W.Next(pos, s, x, t) && !x.Grant? && !x.Release?
    ensures W.Inv(pos, t) && t.held == s.held && t.total == s.total
  {
    W.StepInv(pos, s, x, t);
  }

  lemma {:induction false} RunInv(pos: W.Positions, total: int, states: seq<State>, steps: seq<Step>, i: nat)
    requires W.Injective(pos) && Run(pos, total, states, steps) && i < |states|
    ensures Inv(pos, total, states[i])
  {
    if i == 0 {
      S.InitInv(total);
      W.InitInv(pos, S.Capacity(total));
    } else {
      RunInv(pos, total, states, steps, i - 1);
      StepInv(pos, total, states[i - 1], steps[i - 1], states[i]);
    }
  }

  /** In every interleaving of threads in Acquire, senders and response loop the table never holds more than the window. */
  lemma TableBounded(pos: W.Positions, total: int, states: seq<State>, steps: seq<Step>, i: nat)
    requires W.Injective(pos) && Run(pos, total, states, steps) && i < |states|
    ensures |states[i].win.table| + |states[i].win.granted| <= S.Capacity(total)
  {
    RunInv(pos, total, states, steps, i);
    assert W.Accounted(states[i].win);
  }

  // ------------------------------------------------------------ the window's own runs

  /** What the window does in a step of the whole, if it does anything. */
  function WindowStep(step: Step): Option<W.Step> {
    match step
    case Inside(x) => None
    case Outside(x) => Some(x)
    case Obtain(tid, txnr, uid) => Some(W.Grant(txnr, uid))
    case GiveBack => Some(W.Release)
  }

  /** Every step of the whole is a step of the window's machine or leaves it alone; so is what was proved of that machine. */
  lemma WindowRefines(pos: W.Positions, total: int, states: seq<State>, steps: seq<Step>, i: nat)
    requires W.Injective(pos) && Run(pos, total, states, steps) && i < |steps|
    ensures
      match WindowStep(steps[i])
      case None => states[i + 1].win == states[i].win
      case Some(x) => W.Next(pos, states[i].win, x, states[i + 1].win)
  {
    RunInv(pos, total, states, steps, i);
    match steps[i] {
      case Obtain(_, _, _) => ObtainRefines(pos, total, states[i], steps[i], states[i + 1]);
      case GiveBack => GiveBackRefines(pos, total, states[i], states[i + 1]);
      case _ =>
    }
  }
}
