/** Runs of the state machine that the store object goes through, state by state (store/store.go). */
module StoreTrace {
  import opened Bytes
  import opened StoreState
  import opened StoreInvariant
  import opened StoreRecovery
  import opened StoreCounts

  /** What the store object holds at one moment. */
  datatype Snapshot = Snapshot(disk: Disk, count: map<Uid, int>)

  /** The steps that have been taken, and what the object held after each of them. */
  datatype Trace = Trace(steps: seq<Step>, past: seq<Snapshot>)

  const NOTHING: Trace := Trace([], [])

  function Snap(s: Store): Snapshot { Snapshot(s.disk, s.count) }

  /** The moments of the object are those of a legal run of the machine. */
  ghost predicate Follows(dec: string -> bool, s: Store, t: Trace)
    decreases |t.steps|
  {
    && |t.steps| == |t.past| && Legal(dec, s, t.steps)
    && (t.steps == [] ||
        (var k := |t.steps| - 1;
         Follows(dec, s, Trace(t.steps[..k], t.past[..k])) && t.past[k] == Snap(Exec(dec, s, t.steps))))
  }

  /** A run has come to where the object is, and the machine is up. */
  ghost predicate Reached(dec: string -> bool, s: Store, t: Trace, d: Disk, count: map<Uid, int>) {
    Follows(dec, s, t) && Snap(Exec(dec, s, t.steps)) == Snapshot(d, count) && Exec(dec, s, t.steps).phase.Up?
  }

  function Log(t: Trace, step: Step, d: Disk, count: map<Uid, int>): Trace {
    Trace(t.steps + [step], t.past + [Snapshot(d, count)])
  }

  lemma LogStep(dec: string -> bool, s: Store, t: Trace, step: Step, d: Disk, count: map<Uid, int>)
    requires Follows(dec, s, t) && Enabled(Exec(dec, s, t.steps), step)
    requires
      var n := Apply(dec, Exec(dec, s, t.steps), step);
      Snap(n) == Snapshot(d, count) && n.phase.Up?
    ensures Reached(dec, s, Log(t, step, d, count), d, count)
    ensures Exec(dec, s, Log(t, step, d, count).steps) == Apply(dec, Exec(dec, s, t.steps), step)
  {
    var u := Log(t, step, d, count);
    RunSnoc(dec, s, t.steps, step);
    assert u.steps[..|t.steps|] == t.steps && u.past[..|t.past|] == t.past;
  }

  // ------------------------------------------------------------ Ingest

  function Readies(dests: seq<Dest>, uids: set<Uid>): seq<Step> {
    seq(|dests|, i requires 0 <= i < |dests| => MakeReady(dests[i], uids))
  }

  function News(uids: seq<Uid>): seq<Step> {
    seq(|uids|, i requires 0 <= i < |uids| => CountNew(uids[i]))
  }

  /** An Ingest call: contents first, then one Ready queue after the other, then the counts. */
  function IngestSteps(m: map<Uid, string>, dests: seq<Dest>, order: seq<Uid>): seq<Step> {
    [Content(m)] + Readies(dests, m.Keys) + News(order)
  }

  lemma NewsSnoc(order: seq<Uid>, done: set<Uid>, u: Uid)
    requires Distinct(order) && Elems(order) == done && u !in done
    ensures Distinct(order + [u]) && Elems(order + [u]) == done + {u}
    ensures News(order + [u]) == News(order) + [CountNew(u)]
  {
    assert forall x :: x in order ==> x in Elems(order);
  }

  /** Some of the Ready queues have been written, for uids whose counts are still to come. */
  ghost predicate Ingesting(c: Store, dests: seq<Dest>, done: nat, uids: set<Uid>) {
    && uids <= c.inflight.Keys && (forall u :: u in uids ==> c.inflight[u] == done)
    && forall i, u :: done <= i < |dests| && u in uids ==> Ref(dests[i], u) !in c.hist.committed
  }

  /** The machine is up where the object is. */
  ghost predicate Stands(s: Store, d: Disk, count: map<Uid, int>) {
    s.phase.Up? && Snap(s) == Snapshot(d, count)
  }

  /** The uids of a batch have not been used before, and no destination is listed twice. */
  ghost predicate Unused(s: Store, m: map<Uid, string>, dests: seq<Dest>) {
    Placed(s) && m.Keys !! s.hist.contents.Keys && Distinct(dests)
  }

  lemma ContentStep(dec: string -> bool, s: Store, d: Disk, count: map<Uid, int>, m: map<Uid, string>, dests: seq<Dest>)
    requires Stands(s, d, count) && Unused(s, m, dests)
    ensures
      var e := d.(messages := d.messages + m);
      var t := Log(NOTHING, Content(m), e, count);
      Reached(dec, s, t, e, count) && Ingesting(Exec(dec, s, t.steps), dests, 0, m.Keys)
  {
    LogStep(dec, s, NOTHING, Content(m), d.(messages := d.messages + m), count);
  }

  lemma ReadyStep(dec: string -> bool, s: Store, t: Trace, d: Disk, count: map<Uid, int>, dests: seq<Dest>, done: nat, uids: set<Uid>)
    requires Reached(dec, s, t, d, count) && done < |dests| && Distinct(dests)
    requires Ingesting(Exec(dec, s, t.steps), dests, done, uids)
    ensures
      var e := d.(ready := d.ready + RefsTo(dests[done], uids));
      var u := Log(t, MakeReady(dests[done], uids), e, count);
      Reached(dec, s, u, e, count) && Ingesting(Exec(dec, s, u.steps), dests, done + 1, uids)
  {
    var c := Exec(dec, s, t.steps);
    assert RefsTo(dests[done], uids) !! c.hist.committed;
    LogStep(dec, s, t, MakeReady(dests[done], uids), d.(ready := d.ready + RefsTo(dests[done], uids)), count);
  }

  lemma NewStep(dec: string -> bool, s: Store, t: Trace, d: Disk, count: map<Uid, int>, dests: seq<Dest>, done: nat, todo: set<Uid>, u: Uid)
    requires Reached(dec, s, t, d, count) && u in todo
    requires Ingesting(Exec(dec, s, t.steps), dests, done, todo)
    ensures
      var n := New(count, u, done);
      var v := Log(t, CountNew(u), d, n);
      Reached(dec, s, v, d, n) && Ingesting(Exec(dec, s, v.steps), dests, done, todo - {u})
  {
    LogStep(dec, s, t, CountNew(u), d, New(count, u, done));
  }

  /** What a run keeps when one more step is taken. */
  lemma InOneGoSnoc(steps: seq<Step>, step: Step)
    requires InOneGo(steps) && (Open(steps) == {} || step.MakeReady? || step.CountNew?)
    ensures InOneGo(steps + [step]) && Open(steps + [step]) == OpenAfter(Open(steps), step)
  {
    OpenSnoc(steps, step);
    var more := steps + [step];
    forall i | 0 <= i < |more| && Open(more[..i]) != {} ensures more[i].MakeReady? || more[i].CountNew? || more[i].Crash? {
      assert more[..i] == steps[..i];
      assert i == |steps| ==> steps[..i] == steps;
    }
  }

  lemma {:induction false} ReadiesInOneGo(steps: seq<Step>, dests: seq<Dest>, uids: set<Uid>)
    requires InOneGo(steps)
    ensures InOneGo(steps + Readies(dests, uids)) && Open(steps + Readies(dests, uids)) == Open(steps)
  {
    if dests == [] {
      assert steps + Readies(dests, uids) == steps;
    } else {
      var k := |dests| - 1;
      ReadiesInOneGo(steps, dests[..k], uids);
      InOneGoSnoc(steps + Readies(dests[..k], uids), MakeReady(dests[k], uids));
      assert steps + Readies(dests, uids) == steps + Readies(dests[..k], uids) + [MakeReady(dests[k], uids)];
    }
  }

  lemma LastNews(uids: seq<Uid>)
    requires uids != []
    ensures
      var k := |uids| - 1;
      News(uids) == News(uids[..k]) + [CountNew(uids[k])] && Elems(uids) == Elems(uids[..k]) + {uids[k]}
  {
    assert uids == uids[..|uids| - 1] + [uids[|uids| - 1]];
  }

  lemma {:induction false} NewsInOneGo(steps: seq<Step>, uids: seq<Uid>)
    requires InOneGo(steps)
    ensures InOneGo(steps + News(uids)) && Open(steps + News(uids)) == Open(steps) - Elems(uids)
  {
    if uids == [] {
      assert steps + News(uids) == steps;
    } else {
      var k := |uids| - 1;
      var some := steps + News(uids[..k]);
      NewsInOneGo(steps, uids[..k]);
      InOneGoSnoc(some, CountNew(uids[k]));
      assert steps + News(uids) == some + [CountNew(uids[k])] by { LastNews(uids); }
      LastNews(uids);
    }
  }

  /** The steps of an Ingest call, taken one after the other, leave nothing open. */
  lemma IngestInOneGo(steps: seq<Step>, m: map<Uid, string>, dests: seq<Dest>, order: seq<Uid>)
    requires InOneGo(steps) && Open(steps) == {} && Elems(order) == m.Keys
    ensures
      var more := steps + IngestSteps(m, dests, order);
      InOneGo(more) && Open(more) == {}
  {
    var a := steps + [Content(m)];
    InOneGoSnoc(steps, Content(m));
    ReadiesInOneGo(a, dests, m.Keys);
    NewsInOneGo(a + Readies(dests, m.Keys), order);
    assert steps + IngestSteps(m, dests, order) == a + Readies(dests, m.Keys) + News(order);
  }

  // ------------------------------------------------------------ doACK

  function Decs(acks: seq<Ref>): seq<Step> {
    seq(|acks|, i requires 0 <= i < |acks| => CountDec(acks[i].uid))
  }

  lemma {:induction false} AckAllIs(s: Store, acks: seq<Ref>)
    ensures AckAll(s, acks).disk == AckTx(s.disk, acks)
    ensures AckAll(s, acks).count == s.count && AckAll(s, acks).phase == s.phase
    ensures forall u :: AckAll(s, acks).decs[u] == s.decs[u] + Occurrences(acks, u)
  {
    if acks == [] {
      assert AckTx(s.disk, acks) == s.disk;
    } else {
      var k := |acks| - 1;
      AckAllIs(s, acks[..k]);
      assert acks == acks[..k] + [acks[k]];
      assert AckTx(s.disk, acks) == AckTx(s.disk, acks[..k]).(sent := AckTx(s.disk, acks[..k]).sent - {acks[k]});
    }
  }

  /** The decrements of the ACKs from the i-th on are still to come. */
  ghost predicate Owing(c: Store, acks: seq<Ref>, i: nat)
    requires i <= |acks|
  {
    forall u :: c.decs[u] + Occurrences(acks[..i], u) >= Occurrences(acks, u)
  }

  /** Every ACK concerns its own entry of Sent. */
  ghost predicate Due(acks: seq<Ref>, d: Disk) {
    Distinct(acks) && forall r :: r in acks ==> r in d.sent
  }

  lemma AckStep(dec: string -> bool, s: Store, d: Disk, count: map<Uid, int>, acks: seq<Ref>)
    requires Stands(s, d, count) && Due(acks, d)
    ensures
      var e := AckTx(d, acks);
      var t := Log(NOTHING, Ack(acks), e, count);
      Reached(dec, s, t, e, count) && Owing(Exec(dec, s, t.steps), acks, 0)
  {
    AckAllIs(s, acks);
    LogStep(dec, s, NOTHING, Ack(acks), AckTx(d, acks), count);
  }

  lemma {:induction false} OccurrencesGrow(acks: seq<Ref>, i: nat, u: Uid)
    requires i <= |acks|
    ensures Occurrences(acks[..i], u) <= Occurrences(acks, u)
    decreases |acks| - i
  {
    if i == |acks| {
      assert acks[..i] == acks;
    } else {
      assert acks[..i + 1][..i] == acks[..i];
      OccurrencesGrow(acks, i + 1, u);
    }
  }

  lemma DecStep(dec: string -> bool, s: Store, t: Trace, d: Disk, count: map<Uid, int>, acks: seq<Ref>, i: nat)
    requires Reached(dec, s, t, d, count) && i < |acks| && Owing(Exec(dec, s, t.steps), acks, i)
    ensures
      var n := Dec(count, acks[i].uid);
      var v := Log(t, CountDec(acks[i].uid), d, n);
      Reached(dec, s, v, d, n) && Owing(Exec(dec, s, v.steps), acks, i + 1)
  {
    var c, uid := Exec(dec, s, t.steps), acks[i].uid;
    assert acks[..i + 1][..i] == acks[..i];
    OccurrencesGrow(acks, i + 1, uid);
    assert uid in c.decs;
    LogStep(dec, s, t, CountDec(uid), d, Dec(count, uid));
  }

  // ------------------------------------------------------------ PurgeBadger

  function Selects(uids: seq<Uid>): seq<Step> {
    seq(|uids|, i requires 0 <= i < |uids| => PurgeSelect(uids[i]))
  }

  function Forgets(uids: seq<Uid>): seq<Step> {
    seq(|uids|, i requires 0 <= i < |uids| => PurgeForget(uids[i]))
  }

  /** A purge whose transaction is never committed. */
  function PurgeSteps(uids: seq<Uid>): seq<Step> {
    if uids == [] then [] else Selects(uids) + [PurgeDelete(false)] + Forgets(uids)
  }

  lemma SelectStep(dec: string -> bool, s: Store, t: Trace, d: Disk, count: map<Uid, int>, chosen: set<Uid>, u: Uid)
    requires Reached(dec, s, t, d, count) && u in Garbage(count) && chosen <= Exec(dec, s, t.steps).doomed
    ensures
      var v := Log(t, PurgeSelect(u), d, count);
      Reached(dec, s, v, d, count) && chosen + {u} <= Exec(dec, s, v.steps).doomed
  {
    LogStep(dec, s, t, PurgeSelect(u), d, count);
  }

  lemma DeleteStep(dec: string -> bool, s: Store, t: Trace, d: Disk, count: map<Uid, int>)
    requires Reached(dec, s, t, d, count)
    ensures
      var v := Log(t, PurgeDelete(false), d, count);
      Reached(dec, s, v, d, count) && Exec(dec, s, v.steps).doomed == Exec(dec, s, t.steps).doomed
  {
    LogStep(dec, s, t, PurgeDelete(false), d, count);
  }

  lemma ForgetStep(dec: string -> bool, s: Store, t: Trace, d: Disk, count: map<Uid, int>, left: set<Uid>, u: Uid)
    requires Reached(dec, s, t, d, count) && u in left && left <= Exec(dec, s, t.steps).doomed
    ensures
      var v := Log(t, PurgeForget(u), d, count - {u});
      Reached(dec, s, v, d, count - {u}) && left - {u} <= Exec(dec, s, v.steps).doomed
  {
    LogStep(dec, s, t, PurgeForget(u), d, count - {u});
  }
}
