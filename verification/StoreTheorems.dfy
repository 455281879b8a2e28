/** What the store guarantees over whole runs, in terms of the steps that were taken. */
module StoreTheorems {
  import opened Bytes
  import opened StoreState
  import opened StoreInvariant

  // ------------------------------------------------------------ what a run did

  /** The contents that the Ingest calls of a run stored. */
  ghost function Ingested(steps: seq<Step>): map<Uid, string> {
    if steps == [] then map[]
    else
      var k := |steps| - 1;
      match steps[k]
      case Content(batch) => Ingested(steps[..k]) + batch
      case _ => Ingested(steps[..k])
  }

  /** The entries that the Ingest calls of a run committed to some Ready queue. */
  ghost function Committed(steps: seq<Step>): set<Ref> {
    if steps == [] then {}
    else
      var k := |steps| - 1;
      match steps[k]
      case MakeReady(dest, uids) => Committed(steps[..k]) + RefsTo(dest, uids)
      case _ => Committed(steps[..k])
  }

  /** The entries for which an ACK was applied. */
  ghost function Acked(steps: seq<Step>): set<Ref> {
    if steps == [] then {}
    else
      var k := |steps| - 1;
      match steps[k]
      case Ack(acks) => Acked(steps[..k]) + Elems(acks)
      case _ => Acked(steps[..k])
  }

  lemma {:induction false} AckAllHistory(s: Store, acks: seq<Ref>)
    ensures AckAll(s, acks).hist == s.hist.(acked := s.hist.acked + Elems(acks))
  {
    if acks == [] {
      assert s.hist.acked + Elems(acks) == s.hist.acked;
    } else {
      var k := |acks| - 1;
      AckAllHistory(s, acks[..k]);
      assert Elems(acks) == Elems(acks[..k]) + {acks[k]} by {
        assert acks == acks[..k] + [acks[k]];
      }
    }
  }

  lemma StepHistory(dec: string -> bool, s: Store, step: Step)
    requires Enabled(s, step)
    ensures Apply(dec, s, step).hist.contents == if step.Content? then s.hist.contents + step.batch else s.hist.contents
    ensures Apply(dec, s, step).hist.committed
         == if step.MakeReady? then s.hist.committed + RefsTo(step.dest, step.uids) else s.hist.committed
    ensures Apply(dec, s, step).hist.acked
         == if step.Ack? then s.hist.acked + Elems(step.acks) else s.hist.acked
  {
    if step.Ack? { AckAllHistory(s, step.acks); }
  }

  /** The history kept in the model is the history of the run. */
  lemma {:induction false} HistoryIsRun(dec: string -> bool, steps: seq<Step>)
    requires Legal(dec, FIRST, steps)
    ensures Exec(dec, FIRST, steps).hist.contents == Ingested(steps)
    ensures Exec(dec, FIRST, steps).hist.committed == Committed(steps)
    ensures Exec(dec, FIRST, steps).hist.acked == Acked(steps)
  {
    if steps == [] {
    } else {
      var k := |steps| - 1;
      HistoryIsRun(dec, steps[..k]);
      StepHistory(dec, Exec(dec, FIRST, steps[..k]), steps[k]);
    }
  }

  // ------------------------------------------------------------ no loss

  /** The number of queues an entry is in. */
  function Places(d: Disk, r: Ref): nat {
    (if r in d.ready then 1 else 0) + (if r in d.sent then 1 else 0)
    + (if r in d.failed then 1 else 0) + (if r in d.perm then 1 else 0)
  }

  /**
   At least once: after any run, with crashes anywhere, an entry that was
   committed and not acknowledged is in exactly one queue and its content is
   stored as it was ingested. An acknowledged entry is in no queue.
   */
  lemma NoLoss(dec: string -> bool, steps: seq<Step>, r: Ref)
    requires Legal(dec, FIRST, steps) && r in Committed(steps)
    ensures r.uid in Ingested(steps)
    ensures Good(dec, Ingested(steps)[r.uid]) && r !in Acked(steps) ==>
      var d := Exec(dec, FIRST, steps).disk;
      Places(d, r) == 1 && r.uid in d.messages && d.messages[r.uid] == Ingested(steps)[r.uid]
    ensures r in Acked(steps) ==> Places(Exec(dec, FIRST, steps).disk, r) == 0
  {
    FirstInv(dec);
    RunInv(dec, FIRST, steps);
    HistoryIsRun(dec, steps);
    assert r in Exec(dec, FIRST, steps).hist.committed;
  }

  /** Nothing else is ever in a queue: an entry is there only because it was committed. */
  lemma NoInvention(dec: string -> bool, steps: seq<Step>, r: Ref)
    requires Legal(dec, FIRST, steps)
    ensures Places(Exec(dec, FIRST, steps).disk, r) > 0 ==> r in Committed(steps) && r !in Acked(steps)
  {
    FirstInv(dec);
    RunInv(dec, FIRST, steps);
    HistoryIsRun(dec, steps);
  }

  /**
   The condition in NoLoss is exact: an entry whose content is empty or does
   not decode never leaves Ready except by being dropped, and the retrieve that
   meets it drops it.
   */
  lemma BadContentStaysInReady(dec: string -> bool, steps: seq<Step>, r: Ref)
    requires Legal(dec, FIRST, steps) && r in Committed(steps)
    requires r.uid in Ingested(steps) && !Good(dec, Ingested(steps)[r.uid])
    ensures r !in Acked(steps)
    ensures Places(Exec(dec, FIRST, steps).disk, r) == (if r in Exec(dec, FIRST, steps).disk.ready then 1 else 0)
  {
    FirstInv(dec);
    RunInv(dec, FIRST, steps);
    HistoryIsRun(dec, steps);
    assert r in Exec(dec, FIRST, steps).hist.committed;
  }

  lemma BadContentIsDropped(dec: string -> bool, steps: seq<Step>, r: Ref, uids: set<Uid>)
    requires Legal(dec, FIRST, steps) && r in Committed(steps)
    requires r.uid in Ingested(steps) && !Good(dec, Ingested(steps)[r.uid])
    requires Enabled(Exec(dec, FIRST, steps), Retrieve(r.dest, uids)) && r.uid in uids
    ensures Places(Apply(dec, Exec(dec, FIRST, steps), Retrieve(r.dest, uids)).disk, r) == 0
  {
    var s := Exec(dec, FIRST, steps);
    assert Ref(r.dest, r.uid) == r;
    assert r in RefsTo(r.dest, uids) && r in s.disk.ready;
    BadContentStaysInReady(dec, steps, r);
    assert r.uid in Unusable(dec, s.disk, uids) by {
      FirstInv(dec);
      RunInv(dec, FIRST, steps);
      HistoryIsRun(dec, steps);
    }
  }

  // ------------------------------------------------------------ purge

  ghost predicate Dead(s: Store, u: Uid) {
    && (forall r :: r in s.disk.Held() ==> r.uid != u)
    && u !in s.inflight
    && u in s.hist.contents
  }

  lemma {:induction false} AckAllHeld(s: Store, acks: seq<Ref>)
    ensures AckAll(s, acks).disk.Held() <= s.disk.Held()
    ensures AckAll(s, acks).inflight == s.inflight
  {
    if acks == [] {
    } else {
      AckAllHeld(s, acks[..|acks| - 1]);
    }
  }

  lemma AckDead(s: Store, acks: seq<Ref>, u: Uid)
    requires Dead(s, u)
    ensures Dead(AckAll(s, acks), u)
  {
    AckAllHeld(s, acks);
    AckAllHistory(s, acks);
  }

  /** Once no queue refers to a uid, no step brings it back. */
  lemma StepDead(dec: string -> bool, s: Store, step: Step, u: Uid)
    requires Dead(s, u) && Enabled(s, step)
    ensures Dead(Apply(dec, s, step), u)
  {
    if step.Ack? { AckDead(s, step.acks, u); }
  }

  lemma {:induction false} RunDead(dec: string -> bool, s: Store, more: seq<Step>, u: Uid)
    requires Dead(s, u) && Legal(dec, s, more)
    ensures Dead(Exec(dec, s, more), u)
  {
    if more == [] {
    } else {
      var k := |more| - 1;
      RunDead(dec, s, more[..k], u);
      StepDead(dec, Exec(dec, s, more[..k]), more[k], u);
    }
  }

  /** A uid that GC selects is in no queue of any destination, then and ever after. */
  lemma PurgeSafe(dec: string -> bool, steps: seq<Step>, more: seq<Step>, u: Uid)
    requires Legal(dec, FIRST, steps)
    requires u in Garbage(Exec(dec, FIRST, steps).count)
    requires Legal(dec, Exec(dec, FIRST, steps), more)
    ensures forall d :: Places(Exec(dec, Exec(dec, FIRST, steps), more).disk, Ref(d, u)) == 0
  {
    FirstInv(dec);
    RunInv(dec, FIRST, steps);
    var s := Exec(dec, FIRST, steps);
    assert Dead(s, u) by {
      assert Owed(s, u) == 0;
      forall r | r in s.disk.Held() ensures r.uid != u { if r.uid == u { DestsNone(s.disk.Held(), r); } }
    }
    RunDead(dec, s, more, u);
    var t := Exec(dec, s, more);
    forall d ensures Places(t.disk, Ref(d, u)) == 0 {
      assert Ref(d, u).uid == u;
      assert Ref(d, u) !in t.disk.Held();
    }
  }
}
