/** Reference counts over whole runs: safe always, exact when nothing leaks, and what they need from verdicts. */
module StoreCounts {
  import opened Bytes
  import opened StoreState
  import opened StoreInvariant
  import opened StoreTheorems
  import opened StoreRecovery

  /**
   The two ways in which an entry can go without its count following: an ACK
   whose decrement comes before Ingest has set the count, and an unusable entry
   that retrieve drops.
   */
  ghost function LeakBy(dec: string -> bool, s: Store, step: Step, u: Uid): nat {
    match step
    case CountDec(uid) => if uid == u && u !in s.count then 1 else 0
    case Retrieve(dest, uids) => if u in Unusable(dec, s.disk, uids) then 1 else 0
    case _ => 0
  }

  /** The leaks of a run since its last crash. */
  ghost function Leaks(dec: string -> bool, steps: seq<Step>, u: Uid): nat
    requires Legal(dec, FIRST, steps)
  {
    if steps == [] || steps[|steps| - 1].Crash? then 0
    else
      var k := |steps| - 1;
      Leaks(dec, steps[..k], u) + LeakBy(dec, Exec(dec, FIRST, steps[..k]), steps[k], u)
  }

  lemma {:induction false} AckAllLeaked(s: Store, acks: seq<Ref>)
    ensures AckAll(s, acks).leaked == s.leaked && AckAll(s, acks).count == s.count
  {
    if acks == [] {
    } else {
      AckAllLeaked(s, acks[..|acks| - 1]);
    }
  }

  lemma StepLeaks(dec: string -> bool, s: Store, step: Step, u: Uid)
    requires Inv(dec, s) && Enabled(s, step) && !step.Crash?
    ensures Apply(dec, s, step).leaked[u] == s.leaked[u] + LeakBy(dec, s, step, u)
  {
    if step.Ack? {
      AckAllLeaked(s, step.acks);
    } else if step.RetryFailed? || step.RecoverFailed? {
      RetryKeeps(s, step.dest, step.now);
    }
  }

  lemma {:induction false} LeakedIsLeaks(dec: string -> bool, steps: seq<Step>, u: Uid)
    requires Legal(dec, FIRST, steps)
    ensures Exec(dec, FIRST, steps).leaked[u] == Leaks(dec, steps, u)
  {
    if steps == [] || steps[|steps| - 1].Crash? {
    } else {
      var k := |steps| - 1;
      LeakedIsLeaks(dec, steps[..k], u);
      assert Inv(dec, Exec(dec, FIRST, steps[..k])) by {
        FirstInv(dec);
        RunInv(dec, FIRST, steps[..k]);
      }
      StepLeaks(dec, Exec(dec, FIRST, steps[..k]), steps[k], u);
    }
  }

  /** Conservation: a count is the entries of its uid, plus ACKs on their way, plus leaks. */
  lemma CountConserved(dec: string -> bool, steps: seq<Step>, u: Uid)
    requires Legal(dec, FIRST, steps) && u in Exec(dec, FIRST, steps).count
    ensures
      var s := Exec(dec, FIRST, steps);
      s.count[u] == Load(s.disk, u) + s.decs[u] + Leaks(dec, steps, u)
  {
    FirstInv(dec);
    RunInv(dec, FIRST, steps);
    LeakedIsLeaks(dec, steps, u);
    assert Exec(dec, FIRST, steps).count[u] == Owed(Exec(dec, FIRST, steps), u);
  }

  /** No decrement of the run overtakes the Ingest call that sets its count. */
  ghost predicate NoOvertaking(dec: string -> bool, steps: seq<Step>)
    requires Legal(dec, FIRST, steps)
  {
    forall i :: 0 <= i < |steps| && steps[i].CountDec? ==>
      (LegalPrefix(dec, FIRST, steps, i); steps[i].uid !in Exec(dec, FIRST, steps[..i]).inflight)
  }

  lemma {:induction false} LegalPrefix(dec: string -> bool, s: Store, steps: seq<Step>, i: nat)
    requires Legal(dec, s, steps) && i <= |steps|
    ensures Legal(dec, s, steps[..i])
    decreases |steps|
  {
    if i < |steps| {
      var k := |steps| - 1;
      LegalPrefix(dec, s, steps[..k], i);
      assert steps[..k][..i] == steps[..i];
    } else {
      assert steps[..i] == steps;
    }
  }

  lemma {:induction false} NoLeaks(dec: string -> bool, steps: seq<Step>, u: Uid)
    requires Legal(dec, FIRST, steps) && NoOvertaking(dec, steps)
    requires u in Ingested(steps) ==> Good(dec, Ingested(steps)[u])
    ensures Leaks(dec, steps, u) == 0
  {
    if steps == [] || steps[|steps| - 1].Crash? {
    } else {
      PrefixOvertaking(dec, steps);
      if u in Ingested(steps[..|steps| - 1]) { PrefixIngested(dec, steps, u); }
      NoLeaks(dec, steps[..|steps| - 1], u);
      NoLeakLast(dec, steps, u);
    }
  }

  /** A uid keeps the content it was ingested with. */
  lemma PrefixIngested(dec: string -> bool, steps: seq<Step>, u: Uid)
    requires steps != [] && Legal(dec, FIRST, steps) && u in Ingested(steps[..|steps| - 1])
    ensures u in Ingested(steps) && Ingested(steps)[u] == Ingested(steps[..|steps| - 1])[u]
  {
    HistoryIsRun(dec, steps[..|steps| - 1]);
  }

  lemma NoLeakLast(dec: string -> bool, steps: seq<Step>, u: Uid)
    requires steps != [] && Legal(dec, FIRST, steps)
    requires
      var k := |steps| - 1;
      && (steps[k].CountDec? ==> steps[k].uid !in Exec(dec, FIRST, steps[..k]).inflight)
      && (u in Ingested(steps[..k]) ==> Good(dec, Ingested(steps[..k])[u]))
    ensures LeakBy(dec, Exec(dec, FIRST, steps[..|steps| - 1]), steps[|steps| - 1], u) == 0
  {
    var k := |steps| - 1;
    HistoryIsRun(dec, steps[..k]);
    assert Inv(dec, Exec(dec, FIRST, steps[..k])) by { FirstInv(dec); RunInv(dec, FIRST, steps[..k]); }
    NoLeakStep(dec, Exec(dec, FIRST, steps[..k]), steps[k], u);
  }

  lemma PrefixOvertaking(dec: string -> bool, steps: seq<Step>)
    requires steps != [] && Legal(dec, FIRST, steps) && NoOvertaking(dec, steps)
    ensures NoOvertaking(dec, steps[..|steps| - 1])
    ensures steps[|steps| - 1].CountDec? ==>
      steps[|steps| - 1].uid !in Exec(dec, FIRST, steps[..|steps| - 1]).inflight
  {
    var k := |steps| - 1;
    var p := steps[..k];
    forall i | 0 <= i < |p| && p[i].CountDec?
      ensures Legal(dec, FIRST, p[..i]) && p[i].uid !in Exec(dec, FIRST, p[..i]).inflight
    {
      LegalPrefix(dec, FIRST, p, i);
      assert p[..i] == steps[..i] && p[i] == steps[i];
    }
  }

  lemma NoLeakStep(dec: string -> bool, s: Store, step: Step, u: Uid)
    requires Inv(dec, s) && Enabled(s, step)
    requires step.CountDec? ==> step.uid !in s.inflight
    requires u in s.hist.contents ==> Good(dec, s.hist.contents[u])
    ensures LeakBy(dec, s, step, u) == 0
  {
    if step.Retrieve? && u in step.uids {
      RetrieveSplits(dec, s, step.dest, step.uids);
    }
  }

  /**
   Exactness: when no decrement overtakes its Ingest and the content decodes, a
   count is exactly the entries still held plus the ACKs on their way.
   */
  lemma CountExact(dec: string -> bool, steps: seq<Step>, u: Uid)
    requires Legal(dec, FIRST, steps) && NoOvertaking(dec, steps)
    requires u in Ingested(steps) ==> Good(dec, Ingested(steps)[u])
    requires u in Exec(dec, FIRST, steps).count
    ensures
      var s := Exec(dec, FIRST, steps);
      s.count[u] == Load(s.disk, u) + s.decs[u]
  {
    CountConserved(dec, steps, u);
    NoLeaks(dec, steps, u);
  }

  // ------------------------------------------------------------ Ingest in one go

  /** The uids of Ingest calls that have stored contents and not yet set the count. */
  function Open(steps: seq<Step>): set<Uid> {
    if steps == [] then {} else OpenAfter(Open(steps[..|steps| - 1]), steps[|steps| - 1])
  }

  function OpenAfter(before: set<Uid>, step: Step): set<Uid> {
    match step
    case Content(batch) => before + batch.Keys
    case CountNew(uid) => before - {uid}
    case Crash => {}
    case _ => before
  }

  lemma OpenSnoc(steps: seq<Step>, step: Step)
    ensures Open(steps + [step]) == OpenAfter(Open(steps), step)
  {
    assert (steps + [step])[..|steps|] == steps;
  }

  /** From its contents to its last count, an Ingest call is interrupted by a crash at most. */
  predicate InOneGo(steps: seq<Step>) {
    forall i :: 0 <= i < |steps| && Open(steps[..i]) != {} ==> steps[i].MakeReady? || steps[i].CountNew? || steps[i].Crash?
  }

  lemma StepInflight(dec: string -> bool, s: Store, step: Step)
    requires Enabled(s, step)
    ensures Apply(dec, s, step).inflight.Keys == OpenAfter(s.inflight.Keys, step)
  {
    if step.Ack? { AckAllHeld(s, step.acks); }
  }

  lemma {:induction false} OpenIsInflight(dec: string -> bool, steps: seq<Step>)
    requires Legal(dec, FIRST, steps)
    ensures Exec(dec, FIRST, steps).inflight.Keys == Open(steps)
  {
    if steps == [] {
    } else {
      var k := |steps| - 1;
      OpenIsInflight(dec, steps[..k]);
      StepInflight(dec, Exec(dec, FIRST, steps[..k]), steps[k]);
    }
  }

  /** Whether a decrement overtakes its Ingest shows in the order of the steps. */
  lemma OvertakingShows(dec: string -> bool, steps: seq<Step>)
    requires Legal(dec, FIRST, steps)
    ensures NoOvertaking(dec, steps)
            <==> forall i :: 0 <= i < |steps| && steps[i].CountDec? ==> steps[i].uid !in Open(steps[..i])
  {
    forall i | 0 <= i < |steps|
      ensures Legal(dec, FIRST, steps[..i]) && Exec(dec, FIRST, steps[..i]).inflight.Keys == Open(steps[..i])
    {
      LegalPrefix(dec, FIRST, steps, i);
      OpenIsInflight(dec, steps[..i]);
    }
  }

  /** Counts are exact in every run whose Ingest calls each run in one go. */
  lemma CountExactInOneGo(dec: string -> bool, steps: seq<Step>, u: Uid)
    requires Legal(dec, FIRST, steps) && InOneGo(steps)
    requires u in Ingested(steps) ==> Good(dec, Ingested(steps)[u])
    requires u in Exec(dec, FIRST, steps).count
    ensures
      var s := Exec(dec, FIRST, steps);
      s.count[u] == Load(s.disk, u) + s.decs[u]
  {
    OvertakingShows(dec, steps);
    CountExact(dec, steps, u);
  }

  // ------------------------------------------------------------ one verdict per delivery

  /** How often a uid occurs among ACKs. */
  function Occurrences(acks: seq<Ref>, u: Uid): nat {
    if acks == [] then 0
    else Occurrences(acks[..|acks| - 1], u) + (if acks[|acks| - 1].uid == u then 1 else 0)
  }

  /** doACK on any batch, whatever the senders of verdicts did: Sent loses the entries, each ACK decrements. */
  function DecAll(count: map<Uid, int>, acks: seq<Ref>): map<Uid, int> {
    if acks == [] then count else Dec(DecAll(count, acks[..|acks| - 1]), acks[|acks| - 1].uid)
  }

  function AckTx(d: Disk, acks: seq<Ref>): Disk {
    d.(sent := set r | r in d.sent && r !in acks)
  }

  /** The entries that a batch of ACKs takes out of Sent. */
  function Removed(d: Disk, acks: seq<Ref>): set<Ref> {
    set r | r in acks && r in d.sent
  }

  lemma {:induction false} DecAllCounts(count: map<Uid, int>, acks: seq<Ref>, u: Uid)
    ensures u in DecAll(count, acks) <==> u in count
    ensures u in count ==> DecAll(count, acks)[u] == count[u] - Occurrences(acks, u)
  {
    if acks == [] {
    } else {
      DecAllCounts(count, acks[..|acks| - 1], u);
    }
  }

  lemma RemovedSnoc(d: Disk, acks: seq<Ref>)
    requires acks != []
    ensures
      var k := |acks| - 1;
      Removed(d, acks) == if acks[k] in d.sent then Removed(d, acks[..k]) + {acks[k]} else Removed(d, acks[..k])
  {
    assert acks == acks[..|acks| - 1] + [acks[|acks| - 1]];
  }

  lemma DestsAdd(refs: set<Ref>, r: Ref, u: Uid)
    ensures |DestsOf(refs + {r}, u)| == |DestsOf(refs, u)| + (if r.uid == u && r !in refs then 1 else 0)
  {
    var all := DestsOf(refs + {r}, u);
    if r in refs {
      assert refs + {r} == refs;
    } else if r.uid == u {
      assert all == DestsOf(refs, u) + {r.dest};
      forall q | q in refs && q.uid == u ensures q.dest != r.dest { assert q != r; }
    } else {
      assert all == DestsOf(refs, u);
    }
  }

  /** Each ACK removes at most one entry, and all of them do exactly when the batch is proper. */
  lemma {:induction false} RemovedBound(d: Disk, acks: seq<Ref>, u: Uid)
    ensures |DestsOf(Removed(d, acks), u)| <= Occurrences(acks, u)
    ensures (Distinct(acks) && forall r :: r in acks ==> r in d.sent) ==>
      |DestsOf(Removed(d, acks), u)| == Occurrences(acks, u)
  {
    if acks == [] {
    } else {
      var k := |acks| - 1;
      RemovedBound(d, acks[..k], u);
      RemovedSnoc(d, acks);
      DestsAdd(Removed(d, acks[..k]), acks[k], u);
      if Distinct(acks) { assert acks[k] !in acks[..k]; }
    }
  }

  /** A repeated ACK, or one for an entry that is not in Sent, decrements without removing. */
  lemma {:induction false} RemovedStrict(d: Disk, acks: seq<Ref>, i: nat)
    requires i < |acks| && (acks[i] !in d.sent || acks[i] in acks[..i])
    ensures |DestsOf(Removed(d, acks), acks[i].uid)| < Occurrences(acks, acks[i].uid)
  {
    var k := |acks| - 1;
    var u := acks[i].uid;
    RemovedSnoc(d, acks);
    DestsAdd(Removed(d, acks[..k]), acks[k], u);
    if i == k {
      RemovedBound(d, acks[..k], u);
    } else {
      assert acks[..k][..i] == acks[..i] && acks[..k][i] == acks[i];
      RemovedStrict(d, acks[..k], i);
    }
  }

  /**
   Where counts are exact, applying a batch of ACKs keeps every count at or
   above the entries left if and only if no ACK is repeated and each is for an
   entry in Sent. The store does not check this; its callers must ensure it.
   */
  lemma OneVerdictPerDelivery(s: Store, acks: seq<Ref>)
    requires Placed(s) && CountsExact(s)
    requires forall r :: r in acks ==> r.uid in s.count
    ensures (forall u :: u in s.count ==> u in DecAll(s.count, acks) && Load(AckTx(s.disk, acks), u) <= DecAll(s.count, acks)[u])
       <==> (Distinct(acks) && forall r :: r in acks ==> r in s.disk.sent)
  {
    var d, e := s.disk, AckTx(s.disk, acks);
    forall u | u in s.count
      ensures u in DecAll(s.count, acks)
      ensures Load(e, u) <= DecAll(s.count, acks)[u] <==> Occurrences(acks, u) <= |DestsOf(Removed(d, acks), u)|
    {
      DecAllCounts(s.count, acks, u);
      LoadAfterRemoved(d, acks, u);
    }
    if Distinct(acks) && forall r :: r in acks ==> r in d.sent {
      forall u ensures Occurrences(acks, u) == |DestsOf(Removed(d, acks), u)| { RemovedBound(d, acks, u); }
    } else {
      var i :| 0 <= i < |acks| && (acks[i] !in d.sent || acks[i] in acks[..i]);
      RemovedStrict(d, acks, i);
      assert acks[i] in acks;
    }
  }

  lemma LoadAfterRemoved(d: Disk, acks: seq<Ref>, u: Uid)
    requires forall r :: r in d.sent ==> r !in d.ready && r !in d.failed && r !in d.perm
    ensures Load(AckTx(d, acks), u) + |DestsOf(Removed(d, acks), u)| == Load(d, u)
  {
    var e := AckTx(d, acks);
    assert e.Held() + Removed(d, acks) == d.Held();
    DestsUnion(e.Held(), Removed(d, acks), u);
  }
}
