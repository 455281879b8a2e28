/**
 The send window of the RELP client (clients/relp.go): senders register the uid
 of each message under its transaction number, the response loop takes it out
 and passes the server's verdict on, and the final sweep gives back what is
 left. Senders and response loop interleave at each operation on the table, each
 element the sweep comes to, and each release of a permit.
 */
module Window {
  import opened Bytes

  type Uid = string

  datatype Verdict = Verdict(txnr: int, uid: Uid, ack: bool)

  /**
   The response loop answers, then sweeps the table from one end of its list to
   the other, then clears what the sweep has visited. `cursor` is the position
   of the element the sweep has reached, `due` its entry until it is nacked.
   */
  datatype Phase =
    | Answering
    | Sweeping(cursor: int, due: Option<int>, keys: set<int>)
    | Clearing(keys: set<int>)
    | Over

  /**
   granted: senders that have a permit and have not registered yet; returning:
   permits whose entry is gone and whose release is still to come. registered,
   missed and verdicts are history: `missed` are those registered where the
   sweep will not come.
   */
  datatype State = State(
    total: nat,
    held: nat,
    table: map<int, Uid>,
    granted: map<int, Uid>,
    returning: nat,
    phase: Phase,
    used: set<int>,
    registered: map<int, Uid>,
    missed: set<int>,
    verdicts: seq<Verdict>)

  datatype Step =
    | Grant(txnr: int, uid: Uid)
    | Register(txnr: int)
    | Respond(txnr: int, ok: bool)
    | StartSweep
    | PassBucket(position: int)
    | MoveTo(txnr: int)
    | NackDue
    | EndSweep
    | ClearOne(txnr: int)
    | Finish
    | Release

  function Init(total: nat): State {
    State(total, 0, map[], map[], 0, Answering, {}, map[], {}, [])
  }

  /** Where the list keeps the entry of a transaction: its order is that of the reversed bits of the numbers. */
  type Positions = int -> nat

  ghost predicate Injective(pos: Positions) { forall x, y :: pos(x) == pos(y) ==> x == y }

  /** An entry registered now will still be answered or visited. */
  predicate Ahead(pos: Positions, phase: Phase, txnr: int) {
    phase.Answering? || (phase.Sweeping? && phase.cursor < pos(txnr))
  }

  /** No entry lies in the list after one position and up to another. */
  ghost predicate Bare(pos: Positions, table: map<int, Uid>, from: int, to: int) {
    forall k :: k in table ==> !(from < pos(k) <= to)
  }

  /**
   Transaction numbers come from a counter, so each is used once. That permits
   are granted only while one is free is the semaphore's doing (SendWindow).
   */
  ghost predicate Next(pos: Positions, s: State, step: Step, t: State) {
    match step
    case Grant(txnr, uid) =>
      && s.held < s.total && txnr !in s.used
      && t == s.(held := s.held + 1, granted := s.granted[txnr := uid], used := s.used + {txnr})
    // Put, at any time
    case Register(txnr) =>
      && txnr in s.granted
      && t == s.(granted := s.granted - {txnr},
                 table := s.table[txnr := s.granted[txnr]],
                 registered := s.registered[txnr := s.granted[txnr]],
                 missed := if Ahead(pos, s.phase, txnr) then s.missed else s.missed + {txnr})
    case Respond(txnr, ok) =>
      && s.phase.Answering?
      && t == if txnr !in s.table then s
              else s.(table := s.table - {txnr},
                      returning := s.returning + 1,
                      verdicts := s.verdicts + [Verdict(txnr, s.table[txnr], ok)])
    case StartSweep => s.phase.Answering? && t == s.(phase := Sweeping(-1, None, {}))
    // the next element of the list: a bucket head, or an entry
    case PassBucket(position) =>
      && s.phase.Sweeping? && s.phase.due.None? && s.phase.cursor < position
      && Bare(pos, s.table, s.phase.cursor, position)
      && t == s.(phase := s.phase.(cursor := position))
    case MoveTo(txnr) =>
      && s.phase.Sweeping? && s.phase.due.None? && txnr in s.table && s.phase.cursor < pos(txnr)
      && Bare(pos, s.table, s.phase.cursor, pos(txnr) - 1)
      && t == s.(phase := s.phase.(cursor := pos(txnr), due := Some(txnr)))
    case NackDue =>
      && s.phase.Sweeping? && s.phase.due.Some? && s.phase.due.value in s.table
      && var k := s.phase.due.value;
         t == s.(phase := s.phase.(due := None, keys := s.phase.keys + {k}),
                 verdicts := s.verdicts + [Verdict(k, s.table[k], false)])
    case EndSweep =>
      && s.phase.Sweeping? && s.phase.due.None? && (forall k :: k in s.table ==> pos(k) <= s.phase.cursor)
      && t == s.(phase := Clearing(s.phase.keys))
    case ClearOne(txnr) =>
      && s.phase.Clearing? && txnr in s.phase.keys
      && t == if txnr !in s.table then s.(phase := Clearing(s.phase.keys - {txnr}))
              else s.(phase := Clearing(s.phase.keys - {txnr}),
                      table := s.table - {txnr},
                      returning := s.returning + 1)
    case Finish => s.phase.Clearing? && s.phase.keys == {} && t == s.(phase := Over)
    case Release => s.returning > 0 && s.held > 0 && t == s.(returning := s.returning - 1, held := s.held - 1)
  }

  ghost predicate Run(pos: Positions, total: nat, states: seq<State>, steps: seq<Step>) {
    && |states| == |steps| + 1 && states[0] == Init(total)
    && forall i :: 0 <= i < |steps| ==> Next(pos, states[i], steps[i], states[i + 1])
  }

  // ------------------------------------------------------------ invariant

  /** How many verdicts a transaction has been given. */
  ghost function Count(verdicts: seq<Verdict>, txnr: int): nat {
    if verdicts == [] then 0
    else
      var k := |verdicts| - 1;
      Count(verdicts[..k], txnr) + (if verdicts[k].txnr == txnr then 1 else 0)
  }

  /** Every permit is accounted for. */
  ghost predicate Accounted(s: State) {
    s.held == |s.table| + |s.granted| + s.returning && s.held <= s.total
  }

  ghost predicate Known(s: State) {
    && s.table.Keys <= s.registered.Keys
    && (forall k :: k in s.table ==> s.table[k] == s.registered[k])
    && s.granted.Keys !! s.registered.Keys
    && s.granted.Keys + s.registered.Keys <= s.used
    && s.missed <= s.registered.Keys
    && (forall v :: v in s.verdicts ==> v.txnr in s.registered && v.uid == s.registered[v.txnr])
  }

  /** The loop has not come to an entry yet. */
  ghost predicate Waiting(pos: Positions, phase: Phase, txnr: int) {
    Ahead(pos, phase, txnr) || (phase.Sweeping? && phase.due == Some(txnr))
  }

  /** One verdict for an entry that was answered or visited; none before, and none when missed. */
  ghost function Expected(pos: Positions, s: State, txnr: int): nat {
    if txnr !in s.registered || txnr in s.missed || (txnr in s.table && Waiting(pos, s.phase, txnr)) then 0 else 1
  }

  ghost predicate Counted(pos: Positions, s: State) {
    forall k :: Count(s.verdicts, k) == Expected(pos, s, k)
  }

  /** Where the entries of the table stand. */
  ghost predicate Swept(pos: Positions, s: State) {
    match s.phase
    case Answering => s.missed == {}
    case Sweeping(cursor, due, keys) =>
      && (forall k :: k in s.table ==> k in keys || k in s.missed || Waiting(pos, s.phase, k))
      && (forall k :: k in keys ==> k in s.registered && k !in s.missed && !Waiting(pos, s.phase, k))
      && (forall k :: k in s.missed ==> !Waiting(pos, s.phase, k))
      && (due.Some? ==> due.value in s.table && pos(due.value) == cursor)
    case Clearing(keys) =>
      && (forall k :: k in s.table ==> k in keys || k in s.missed)
      && (forall k :: k in keys ==> k in s.registered && k !in s.missed)
    case Over => forall k :: k in s.table ==> k in s.missed
  }

  ghost predicate Inv(pos: Positions, s: State) {
    Accounted(s) && Known(s) && Counted(pos, s) && Swept(pos, s)
  }

  lemma CountSnoc(verdicts: seq<Verdict>, v: Verdict, k: int)
    ensures Count(verdicts + [v], k) == Count(verdicts, k) + (if v.txnr == k then 1 else 0)
  {
    assert (verdicts + [v])[..|verdicts|] == verdicts;
  }

  lemma CardRemove(m: map<int, Uid>, k: int)
    requires k in m
    ensures |m - {k}| == |m| - 1
  {
    assert (m - {k}).Keys == m.Keys - {k};
    assert |m.Keys| == |m| && |(m - {k}).Keys| == |m - {k}|;
  }

  lemma CardAdd(m: map<int, Uid>, k: int, u: Uid)
    requires k !in m
    ensures |m[k := u]| == |m| + 1
  {
    assert m[k := u].Keys == m.Keys + {k};
    assert |m[k := u].Keys| == |m[k := u]| && |m.Keys| == |m|;
  }

  lemma StepAccounted(pos: Positions, s: State, step: Step, t: State)
    requires Accounted(s) && Known(s) && Next(pos, s, step, t)
    ensures Accounted(t)
  {
    match step {
      case Grant(txnr, uid) => CardAdd(s.granted, txnr, uid);
      case Register(txnr) => CardRemove(s.granted, txnr); CardAdd(s.table, txnr, s.granted[txnr]);
      case Respond(txnr, ok) => if txnr in s.table { CardRemove(s.table, txnr); }
      case ClearOne(txnr) => if txnr in s.table { CardRemove(s.table, txnr); }
      case _ =>
    }
  }

  lemma StepKnown(pos: Positions, s: State, step: Step, t: State)
    requires Known(s) && Next(pos, s, step, t)
    ensures Known(t)
  {
  }

  lemma StepSwept(pos: Positions, s: State, step: Step, t: State)
    requires Injective(pos) && Known(s) && Swept(pos, s) && Next(pos, s, step, t)
    ensures Swept(pos, t)
  {
  }

  /** A step that gives no verdict changes nobody's number of verdicts. */
  lemma SameCounted(pos: Positions, s: State, step: Step, t: State)
    requires Injective(pos) && Known(s) && Swept(pos, s) && Next(pos, s, step, t) && t.verdicts == s.verdicts
    ensures forall k :: Expected(pos, t, k) == Expected(pos, s, k)
  {
  }

  lemma RespondCounted(pos: Positions, s: State, txnr: int, ok: bool, t: State, k: int)
    requires Known(s) && Swept(pos, s) && Next(pos, s, Respond(txnr, ok), t) && txnr in s.table
    ensures Expected(pos, t, k) == Expected(pos, s, k) + if k == txnr then 1 else 0
  {
  }

  lemma NackCounted(pos: Positions, s: State, t: State, k: int)
    requires Injective(pos) && Known(s) && Swept(pos, s) && Next(pos, s, NackDue, t)
    ensures Expected(pos, t, k) == Expected(pos, s, k) + if k == s.phase.due.value then 1 else 0
  {
  }

  lemma StepCounted(pos: Positions, s: State, step: Step, t: State)
    requires Injective(pos) && Known(s) && Swept(pos, s) && Counted(pos, s) && Next(pos, s, step, t)
    ensures Counted(pos, t)
  {
    if step.Respond? && step.txnr in s.table {
      forall k ensures Count(t.verdicts, k) == Expected(pos, t, k) {
        CountSnoc(s.verdicts, Verdict(step.txnr, s.table[step.txnr], step.ok), k);
        RespondCounted(pos, s, step.txnr, step.ok, t, k);
      }
    } else if step.NackDue? {
      var x := s.phase.due.value;
      forall k ensures Count(t.verdicts, k) == Expected(pos, t, k) {
        CountSnoc(s.verdicts, Verdict(x, s.table[x], false), k);
        NackCounted(pos, s, t, k);
      }
    } else {
      SameCounted(pos, s, step, t);
    }
  }

  lemma StepInv(pos: Positions, s: State, step: Step, t: State)
    requires Injective(pos) && Inv(pos, s) && Next(pos, s, step, t)
    ensures Inv(pos, t)
  {
    StepAccounted(pos, s, step, t);
    StepKnown(pos, s, step, t);
    StepSwept(pos, s, step, t);
    StepCounted(pos, s, step, t);
  }

  lemma InitInv(pos: Positions, total: nat)
    ensures Inv(pos, Init(total))
  {
    assert |Init(total).table| == 0;
  }

  lemma {:induction false} RunInv(pos: Positions, total: nat, states: seq<State>, steps: seq<Step>, i: nat)
    requires Injective(pos) && Run(pos, total, states, steps) && i < |states|
    ensures Inv(pos, states[i]) && states[i].total == total
  {
    if i == 0 {
      InitInv(pos, total);
    } else {
      RunInv(pos, total, states, steps, i - 1);
      StepInv(pos, states[i - 1], steps[i - 1], states[i]);
    }
  }

  // ------------------------------------------------------------ guarantees

  /** The table never holds more than the window. */
  lemma WindowBounded(pos: Positions, total: nat, states: seq<State>, steps: seq<Step>, i: nat)
    requires Injective(pos) && Run(pos, total, states, steps) && i < |states|
    ensures |states[i].table| <= total
  {
    RunInv(pos, total, states, steps, i);
  }

  /** Whether the sweep misses an entry is settled when the entry is registered. */
  lemma {:induction false} MissedSince(pos: Positions, total: nat, states: seq<State>, steps: seq<Step>, j: nat, i: nat, k: int)
    requires Injective(pos) && Run(pos, total, states, steps)
    requires j < i < |states| && steps[j] == Register(k)
    ensures k in states[i].registered && (k in states[i].missed <==> !Ahead(pos, states[j].phase, k))
    decreases i
  {
    RunInv(pos, total, states, steps, i - 1);
    if i - 1 == j {
      RegisterMissed(pos, states[j], k, states[i]);
    } else {
      MissedSince(pos, total, states, steps, j, i - 1, k);
      StepMissed(pos, states[i - 1], steps[i - 1], states[i], k);
    }
  }

  lemma RegisterMissed(pos: Positions, s: State, k: int, t: State)
    requires Known(s) && Next(pos, s, Register(k), t)
    ensures k in t.registered && (k in t.missed <==> !Ahead(pos, s.phase, k))
  {
  }

  lemma StepMissed(pos: Positions, s: State, step: Step, t: State, k: int)
    requires Known(s) && Next(pos, s, step, t) && k in s.registered
    ensures k in t.registered && (k in t.missed <==> k in s.missed)
  {
  }

  /**
   When the response loop is over, a uid has been acked or nacked exactly once
   if it was registered before the sweep or ahead of it, and not at all if it
   was registered behind the sweep or after it.
   */
  lemma OneVerdictEach(pos: Positions, total: nat, states: seq<State>, steps: seq<Step>, j: nat, i: nat, k: int)
    requires Injective(pos) && Run(pos, total, states, steps)
    requires j < i < |states| && steps[j] == Register(k) && states[i].phase.Over?
    ensures Count(states[i].verdicts, k) == if Ahead(pos, states[j].phase, k) then 1 else 0
  {
    RunInv(pos, total, states, steps, i);
    MissedSince(pos, total, states, steps, j, i, k);
  }

  /** Before that, nothing is answered twice, and every verdict carries the uid that was registered. */
  lemma NeverTwice(pos: Positions, total: nat, states: seq<State>, steps: seq<Step>, i: nat, k: int)
    requires Injective(pos) && Run(pos, total, states, steps) && i < |states|
    ensures Count(states[i].verdicts, k) <= 1
    ensures forall v :: v in states[i].verdicts ==>
      v.txnr in states[i].registered && v.uid == states[i].registered[v.txnr]
  {
    RunInv(pos, total, states, steps, i);
    assert Count(states[i].verdicts, k) == Expected(pos, states[i], k);
  }
}
