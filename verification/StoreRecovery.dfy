/** Restart after a crash: the recovery sequence of init (store/store.go). */
module StoreRecovery {
  import opened Bytes
  import opened StoreState
  import opened StoreInvariant
  import opened StoreTheorems

  // ------------------------------------------------------------ runs, one after the other

  lemma {:induction false} RunConcat(dec: string -> bool, s: Store, x: seq<Step>, y: seq<Step>)
    requires Legal(dec, s, x) && Legal(dec, Exec(dec, s, x), y)
    ensures Legal(dec, s, x + y) && Exec(dec, s, x + y) == Exec(dec, Exec(dec, s, x), y)
  {
    if y == [] {
      assert x + y == x;
    } else {
      var k := |y| - 1;
      RunConcat(dec, s, x, y[..k]);
      assert (x + y)[..|x + y| - 1] == x + y[..k];
    }
  }

  /** One more step at the end. */
  lemma RunSnoc(dec: string -> bool, s: Store, x: seq<Step>, step: Step)
    requires Legal(dec, s, x) && Enabled(Exec(dec, s, x), step)
    ensures Legal(dec, s, x + [step]) && Exec(dec, s, x + [step]) == Apply(dec, Exec(dec, s, x), step)
  {
    assert (x + [step])[..|x|] == x;
  }

  // ------------------------------------------------------------ the sequence

  /** Both reset passes visit every destination once, each in an order of its own. */
  ghost predicate Order(a: seq<Dest>) {
    Distinct(a) && forall d :: d in DESTINATIONS ==> d in a
  }

  function SentSteps(a: seq<Dest>): seq<Step> {
    seq(|a|, i requires 0 <= i < |a| => RecoverSent(a[i]))
  }

  function FailedSteps(b: seq<Dest>, now: Dest -> int): seq<Step> {
    seq(|b|, i requires 0 <= i < |b| => RecoverFailed(b[i], now(b[i])))
  }

  function RecoverySteps(a: seq<Dest>, b: seq<Dest>, now: Dest -> int): seq<Step> {
    SentSteps(a) + FailedSteps(b, now) + [Prune] + [InitCount]
  }

  lemma SentSnoc(dec: string -> bool, s: Store, x: seq<Step>, dest: Dest)
    requires Legal(dec, s, x)
    requires Exec(dec, s, x).phase.ResetSent? && dest in Exec(dec, s, x).phase.todo
    ensures Legal(dec, s, x + [RecoverSent(dest)])
    ensures Exec(dec, s, x + [RecoverSent(dest)]).phase == AfterSent(Exec(dec, s, x).phase.todo - {dest})
  {
    RunSnoc(dec, s, x, RecoverSent(dest));
  }

  /** The destinations not yet visited after the first k. */
  ghost function Left(a: seq<Dest>, k: nat): set<Dest>
    requires k <= |a|
  {
    DESTINATIONS - Elems(a[..k])
  }

  lemma OrderLeft(a: seq<Dest>, k: nat)
    requires Order(a) && k < |a|
    ensures a[k] in Left(a, k) && Left(a, k + 1) == Left(a, k) - {a[k]}
    ensures k + 1 == |a| ==> Left(a, k + 1) == {}
  {
    AllDests(a[k]);
    assert a[..k + 1] == a[..k] + [a[k]];
    assert a[k] !in a[..k];
    if k + 1 == |a| { assert a[..k + 1] == a; }
  }

  lemma LeftAll(a: seq<Dest>)
    ensures AfterSent(Left(a, 0)) == ResetSent(DESTINATIONS) && AfterFailed(Left(a, 0)) == ResetFailed(DESTINATIONS)
  {
    assert a[..0] == [] && Kafka in DESTINATIONS;
    assert DESTINATIONS - {} == DESTINATIONS;
  }

  lemma LeftNext(a: seq<Dest>, k: nat)
    requires Order(a) && k < |a|
    ensures AfterSent(Left(a, k)) == ResetSent(Left(a, k)) && AfterFailed(Left(a, k)) == ResetFailed(Left(a, k))
    ensures a[k] in Left(a, k) && Left(a, k + 1) == Left(a, k) - {a[k]}
  {
    OrderLeft(a, k);
  }

  lemma {:induction false} SentRuns(dec: string -> bool, s: Store, a: seq<Dest>, k: nat)
    requires s.phase == ResetSent(DESTINATIONS) && Order(a) && k <= |a|
    ensures Legal(dec, s, SentSteps(a)[..k])
    ensures Exec(dec, s, SentSteps(a)[..k]).phase == AfterSent(Left(a, k))
  {
    if k == 0 {
      LeftAll(a);
    } else {
      var x := SentSteps(a)[..k - 1];
      SentRuns(dec, s, a, k - 1);
      LeftNext(a, k - 1);
      SentSnoc(dec, s, x, a[k - 1]);
      SentStepsSnoc(a, k - 1);
    }
  }

  lemma SentStepsSnoc(a: seq<Dest>, k: nat)
    requires k < |a|
    ensures SentSteps(a)[..k + 1] == SentSteps(a)[..k] + [RecoverSent(a[k])]
  {
  }

  lemma FailedSnoc(dec: string -> bool, s: Store, x: seq<Step>, dest: Dest, now: int)
    requires Legal(dec, s, x)
    requires Exec(dec, s, x).phase.ResetFailed? && dest in Exec(dec, s, x).phase.todo
    ensures Legal(dec, s, x + [RecoverFailed(dest, now)])
    ensures Exec(dec, s, x + [RecoverFailed(dest, now)]).phase == AfterFailed(Exec(dec, s, x).phase.todo - {dest})
  {
    RunSnoc(dec, s, x, RecoverFailed(dest, now));
  }

  lemma {:induction false} FailedRuns(dec: string -> bool, s: Store, b: seq<Dest>, now: Dest -> int, k: nat)
    requires s.phase == ResetFailed(DESTINATIONS) && Order(b) && k <= |b|
    ensures Legal(dec, s, FailedSteps(b, now)[..k])
    ensures Exec(dec, s, FailedSteps(b, now)[..k]).phase == AfterFailed(Left(b, k))
  {
    if k == 0 {
      LeftAll(b);
    } else {
      var x := FailedSteps(b, now)[..k - 1];
      FailedRuns(dec, s, b, now, k - 1);
      LeftNext(b, k - 1);
      FailedSnoc(dec, s, x, b[k - 1], now(b[k - 1]));
      FailedStepsSnoc(b, now, k - 1);
    }
  }

  lemma FailedStepsSnoc(b: seq<Dest>, now: Dest -> int, k: nat)
    requires k < |b|
    ensures FailedSteps(b, now)[..k + 1] == FailedSteps(b, now)[..k] + [RecoverFailed(b[k], now(b[k]))]
  {
  }

  lemma OrderEnds(a: seq<Dest>)
    requires Order(a)
    ensures |a| > 0 && Left(a, |a|) == {}
  {
    assert Kafka in a;
    OrderLeft(a, |a| - 1);
  }

  /** In every order of the destinations, recovery runs to the end and brings the store up. */
  lemma RecoveryRuns(dec: string -> bool, s: Store, a: seq<Dest>, b: seq<Dest>, now: Dest -> int)
    requires s.phase == ResetSent(DESTINATIONS) && Order(a) && Order(b)
    ensures Legal(dec, s, RecoverySteps(a, b, now))
    ensures Exec(dec, s, RecoverySteps(a, b, now)).phase.Up?
  {
    OrderEnds(a);
    OrderEnds(b);
    SentRuns(dec, s, a, |a|);
    assert SentSteps(a)[..|a|] == SentSteps(a);
    var s1 := Exec(dec, s, SentSteps(a));
    FailedRuns(dec, s1, b, now, |b|);
    assert FailedSteps(b, now)[..|b|] == FailedSteps(b, now);
    RunConcat(dec, s, SentSteps(a), FailedSteps(b, now));
    var x := SentSteps(a) + FailedSteps(b, now);
    RunSnoc(dec, s, x, Prune);
    RunSnoc(dec, s, x + [Prune], InitCount);
  }

  // ------------------------------------------------------------ what it restores

  /** The counts of a store: exactly the entries, for exactly the uids that have some. */
  ghost predicate CountsExact(s: Store) {
    && (forall u :: u in s.count <==> Load(s.disk, u) > 0)
    && (forall u :: u in s.count ==> s.count[u] == Load(s.disk, u))
  }

  lemma JustCounted(dec: string -> bool, s: Store)
    requires Inv(dec, s) && s.phase.Counting?
    ensures CountsExact(Apply(dec, s, InitCount))
  {
    var t := Apply(dec, s, InitCount);
    forall u
      ensures u in t.count <==> Load(t.disk, u) > 0
      ensures u in t.count ==> t.count[u] == Load(t.disk, u)
    {
      CountsLoad(s.disk, u);
    }
  }

  /** Recovery steps move entries and delete contents; they add and remove no entry. */
  lemma {:induction false} RecoveryKeepsHeld(dec: string -> bool, s: Store, steps: seq<Step>)
    requires Inv(dec, s) && Legal(dec, s, steps)
    requires forall i :: 0 <= i < |steps| ==>
      steps[i].RecoverSent? || steps[i].RecoverFailed? || steps[i].Prune? || steps[i].InitCount?
    ensures Exec(dec, s, steps).disk.Held() == s.disk.Held()
    ensures Exec(dec, s, steps).hist == s.hist
  {
    if steps == [] {
    } else {
      var k := |steps| - 1;
      RecoveryKeepsHeld(dec, s, steps[..k]);
      var m := Exec(dec, s, steps[..k]);
      RunInv(dec, s, steps[..k]);
      StepKeepsHeld(dec, m, steps[k]);
    }
  }

  lemma StepKeepsHeld(dec: string -> bool, m: Store, step: Step)
    requires Inv(dec, m) && Enabled(m, step)
    requires step.RecoverSent? || step.RecoverFailed? || step.Prune? || step.InitCount?
    ensures Apply(dec, m, step).disk.Held() == m.disk.Held()
    ensures Apply(dec, m, step).hist == m.hist
  {
    if step.RecoverFailed? {
      RetryKeeps(m, step.dest, step.now);
    } else if step.RecoverSent? {
      SentMoves(m.disk, m.hist, step.dest);
    }
  }

  /**
   What recovery makes of a state: every entry is still there, none is in Sent,
   each count equals the number of entries, and the contents kept are those of
   referenced uids, all of them if they are good.
   */
  ghost predicate Recovered(dec: string -> bool, s: Store, t: Store) {
    && t.phase.Up? && t.disk.sent == {}
    && t.disk.Held() == s.disk.Held() && t.hist == s.hist
    && CountsExact(t)
    && (forall u :: u in t.disk.messages ==> u in Uids(t.disk.Held()))
    && (forall r :: r in t.disk.Held() ==>
          r.uid in t.hist.contents && (Good(dec, t.hist.contents[r.uid]) ==> r.uid in t.disk.messages))
  }

  lemma LastIsCount(dec: string -> bool, m: Store)
    requires Inv(dec, m) && m.phase.Counting?
    ensures Recovered(dec, m, Apply(dec, m, InitCount))
  {
    var t := Apply(dec, m, InitCount);
    assert CountsExact(t) by { JustCounted(dec, m); }
    assert forall u :: u in t.disk.messages ==> u in Uids(t.disk.Held()) by {
      assert m.disk.Held() == m.disk.Settled();
    }
  }

  lemma RecoveredFrom(dec: string -> bool, c: Store, a: seq<Dest>, b: seq<Dest>, now: Dest -> int)
    requires Inv(dec, c) && c.phase == ResetSent(DESTINATIONS) && Order(a) && Order(b)
    ensures Legal(dec, c, RecoverySteps(a, b, now))
    ensures Recovered(dec, c, Exec(dec, c, RecoverySteps(a, b, now)))
  {
    var rec := RecoverySteps(a, b, now);
    RecoveryRuns(dec, c, a, b, now);
    var k := |rec| - 1;
    assert rec[k] == InitCount;
    var m := Exec(dec, c, rec[..k]);
    assert Inv(dec, m) by { RunInv(dec, c, rec[..k]); }
    LastIsCount(dec, m);
    RecoveryKeepsHeld(dec, c, rec[..k]);
  }

  /** A crash after any run, followed by recovery in any order of the destinations. */
  lemma CrashRecovery(dec: string -> bool, steps: seq<Step>, a: seq<Dest>, b: seq<Dest>, now: Dest -> int)
    requires Legal(dec, FIRST, steps) && Order(a) && Order(b)
    ensures Legal(dec, FIRST, steps + [Crash] + RecoverySteps(a, b, now))
    ensures Recovered(dec, Exec(dec, FIRST, steps), Exec(dec, FIRST, steps + [Crash] + RecoverySteps(a, b, now)))
  {
    var s := Exec(dec, FIRST, steps);
    RunSnoc(dec, FIRST, steps, Crash);
    var c := Boot(s.disk, s.hist);
    assert Inv(dec, c) by {
      FirstInv(dec);
      RunInv(dec, FIRST, steps);
      CrashInv(dec, s);
    }
    RecoveredFrom(dec, c, a, b, now);
    RunConcat(dec, FIRST, steps + [Crash], RecoverySteps(a, b, now));
  }

  /** When every ingested content is good, recovery leaves exactly the referenced contents. */
  lemma RecoveredContents(dec: string -> bool, s: Store, t: Store)
    requires Recovered(dec, s, t)
    requires forall u :: u in t.hist.contents ==> Good(dec, t.hist.contents[u])
    ensures t.disk.messages.Keys == Uids(t.disk.Held())
  {
  }

  /**
   Pruning before Sent is emptied deletes content that is still needed: prune
   is safe exactly when every uid in Sent also has an entry in another queue.
   */
  lemma PruneSafeWhen(d: Disk)
    ensures (forall r :: r in d.Held() && r.uid in d.messages ==> r.uid in PruneTx(d).messages)
       <==> (forall r :: r in d.sent && r.uid in d.messages ==> r.uid in Uids(d.Settled()))
  {
    forall r | r in d.Settled() ensures r.uid in Uids(d.Settled()) { }
    if forall r :: r in d.Held() && r.uid in d.messages ==> r.uid in PruneTx(d).messages {
      forall r | r in d.sent && r.uid in d.messages ensures r.uid in Uids(d.Settled()) {
        assert r in d.Held();
      }
    }
  }

  // ------------------------------------------------------------ when a reset fails

  /** The first pass: it ends early when the transaction of a destination fails, and init goes on all the same. */
  function ResetAll(d: Disk, a: seq<Dest>): Disk {
    if a == [] then d else SentTx(ResetAll(d, a[..|a| - 1]), a[|a| - 1])
  }

  /** The second pass, which may end early too. */
  function RetryAll(d: Disk, b: seq<Dest>, now: Dest -> int): Disk {
    if b == [] then d else RetryTx(RetryAll(d, b[..|b| - 1], now), b[|b| - 1], now(b[|b| - 1]))
  }

  /** The disk that is then pruned, and counted. */
  function Passed(d: Disk, a: seq<Dest>, b: seq<Dest>, now: Dest -> int): Disk {
    RetryAll(ResetAll(d, a), b, now)
  }

  /** The entries of Sent that the first pass did not come to. */
  function Stranded(d: Disk, a: seq<Dest>): set<Ref> {
    set r | r in d.sent && r.dest !in a
  }

  lemma {:induction false} ResetAllMoves(d: Disk, h: History, a: seq<Dest>)
    requires Disjoint(d, h)
    ensures Moves(d, ResetAll(d, a), h) && ResetAll(d, a).failed == d.failed
    ensures ResetAll(d, a).sent == Stranded(d, a)
  {
    if a == [] {
    } else {
      var k := |a| - 1;
      ResetAllMoves(d, h, a[..k]);
      SentMoves(ResetAll(d, a[..k]), h, a[k]);
      assert a == a[..k] + [a[k]];
    }
  }

  lemma {:induction false} RetryAllMoves(s: Store, b: seq<Dest>, now: Dest -> int)
    requires Stamped(s) && Disjoint(s.disk, s.hist)
    ensures Moves(s.disk, RetryAll(s.disk, b, now), s.hist) && Stamped(s.(disk := RetryAll(s.disk, b, now)))
    ensures RetryAll(s.disk, b, now).sent == s.disk.sent
  {
    if b == [] {
    } else {
      var k := |b| - 1;
      RetryAllMoves(s, b[..k], now);
      RetryKeeps(s.(disk := RetryAll(s.disk, b[..k], now)), b[k], now(b[k]));
    }
  }

  /** Both passes only move entries, whether they end early or not. */
  lemma PassedMoves(dec: string -> bool, s: Store, a: seq<Dest>, b: seq<Dest>, now: Dest -> int)
    requires Inv(dec, s)
    ensures
      var e := Passed(s.disk, a, b, now);
      Moves(s.disk, e, s.hist) && e.sent == Stranded(s.disk, a) && e.Settled() == s.disk.Held() - Stranded(s.disk, a)
  {
    ResetAllMoves(s.disk, s.hist, a);
    var t := s.(disk := ResetAll(s.disk, a));
    RetryAllMoves(t, b, now);
    SettledRest(RetryAll(t.disk, b, now), s.hist);
  }

  lemma SettledRest(e: Disk, h: History)
    requires Disjoint(e, h)
    ensures e.Settled() == e.Held() - e.sent
  {
  }

  /** Contents that a queue entry still needs survive. */
  ghost predicate Keeps(d: Disk, e: Disk) {
    forall r :: r in d.Held() && r.uid in d.messages ==> r.uid in e.messages
  }

  /**
   A start after any run, whose passes may end early: pruning keeps every needed
   content if and only if each stranded uid has another entry that is not
   stranded, and a count falls short by the stranded entries of its uid.
   */
  lemma StartExact(dec: string -> bool, steps: seq<Step>, a: seq<Dest>, b: seq<Dest>, now: Dest -> int, u: Uid)
    requires Legal(dec, FIRST, steps)
    ensures
      var d := Exec(dec, FIRST, steps).disk;
      var e := Passed(d, a, b, now);
      var count := InitialCount(e);
      && (Keeps(e, PruneTx(e)) <==> Uids(Stranded(d, a)) <= Uids(d.Held() - Stranded(d, a)))
      && (if u in count then count[u] else 0) == Load(d, u) - |DestsOf(Stranded(d, a), u)|
  {
    var s := Exec(dec, FIRST, steps);
    assert Inv(dec, s) by {
      FirstInv(dec);
      RunInv(dec, FIRST, steps);
    }
    StrandedContents(dec, s, a, b, now);
    StrandedCount(dec, s, a, b, now, u);
  }

  lemma StrandedCount(dec: string -> bool, s: Store, a: seq<Dest>, b: seq<Dest>, now: Dest -> int, u: Uid)
    requires Inv(dec, s)
    ensures
      var count := InitialCount(Passed(s.disk, a, b, now));
      (if u in count then count[u] else 0) == Load(s.disk, u) - |DestsOf(Stranded(s.disk, a), u)|
  {
    PassedMoves(dec, s, a, b, now);
    TallyOf(Passed(s.disk, a, b, now), s.hist, u);
    Shortfall(s.disk.Held(), Stranded(s.disk, a), u);
  }

  lemma Shortfall(held: set<Ref>, lost: set<Ref>, u: Uid)
    requires lost <= held
    ensures |DestsOf(held - lost, u)| == |DestsOf(held, u)| - |DestsOf(lost, u)|
  {
    DestsUnion(held - lost, lost, u);
    assert held - lost + lost == held;
  }

  lemma TallyOf(e: Disk, h: History, u: Uid)
    requires Disjoint(e, h)
    ensures (if u in InitialCount(e) then InitialCount(e)[u] else 0) == |DestsOf(e.Settled(), u)|
  {
    InitialCountIsLoad(e, u);
  }

  lemma StrandedContents(dec: string -> bool, s: Store, a: seq<Dest>, b: seq<Dest>, now: Dest -> int)
    requires Inv(dec, s)
    ensures
      var e := Passed(s.disk, a, b, now);
      Keeps(e, PruneTx(e)) <==> Uids(Stranded(s.disk, a)) <= Uids(s.disk.Held() - Stranded(s.disk, a))
  {
    PassedMoves(dec, s, a, b, now);
    var e := Passed(s.disk, a, b, now);
    PruneSafeWhen(e);
    forall r | r in e.sent ensures r.uid in e.messages { assert r in s.disk.sent && r in s.disk.Held(); }
  }
}
