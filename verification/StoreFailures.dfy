/**
 Startups that go on after a failing transaction (init in store/store.go), and
 what they cost over the runs that follow. A uid that was never left in Sent by
 such a startup keeps every guarantee: what happens to it is a run of the store
 whose startups do not fail.
 */
module StoreFailures {
  import opened Bytes
  import opened StoreState
  import opened StoreInvariant
  import opened StoreTheorems
  import opened StoreRecovery
  import Conv

  /** A step, or the end of a stage of startup whose transaction failed; the failure is only logged. */
  datatype Event = Do(step: Step) | GiveUpSent | GiveUpFailed | GiveUpPrune

  predicate Possible(s: Store, e: Event) {
    match e
    case Do(step) => Enabled(s, step)
    case GiveUpSent => s.phase.ResetSent?
    case GiveUpFailed => s.phase.ResetFailed?
    case GiveUpPrune => s.phase.Pruning?
  }

  function Happen(dec: string -> bool, s: Store, e: Event): Store
    requires Possible(s, e)
  {
    match e
    case Do(step) => Apply(dec, s, step)
    case GiveUpSent => s.(phase := ResetFailed(DESTINATIONS))
    case GiveUpFailed => s.(phase := Pruning)
    case GiveUpPrune => s.(phase := Counting)
  }

  ghost predicate Lawful(dec: string -> bool, events: seq<Event>)
    decreases events, 0
  {
    events == [] ||
    (var k := |events| - 1; Lawful(dec, events[..k]) && Possible(After(dec, events[..k]), events[k]))
  }

  ghost function After(dec: string -> bool, events: seq<Event>): Store
    requires Lawful(dec, events)
    decreases events, 1
  {
    if events == [] then FIRST
    else var k := |events| - 1; Happen(dec, After(dec, events[..k]), events[k])
  }

  /** The uids that some startup has left in Sent. */
  ghost function Exposed(dec: string -> bool, events: seq<Event>): set<Uid>
    requires Lawful(dec, events)
  {
    if events == [] then {}
    else
      var k := |events| - 1;
      Exposed(dec, events[..k]) + if events[k].GiveUpSent? then Uids(After(dec, events[..k]).disk.sent) else {}
  }

  // ------------------------------------------------------------ the other uids

  function Rest(refs: set<Ref>, out: set<Uid>): set<Ref> {
    set r | r in refs && r.uid !in out
  }

  function RestMap(m: map<Ref, Data>, out: set<Uid>): map<Ref, Data> {
    map r | r in m && r.uid !in out :: m[r]
  }

  /** One store is the other without some uids: its queues, */
  ghost predicate Queues(d: Disk, e: Disk, out: set<Uid>) {
    && e.ready == Rest(d.ready, out) && e.sent == Rest(d.sent, out)
    && e.failed == RestMap(d.failed, out) && e.perm == RestMap(d.perm, out)
  }

  /** its history, */
  ghost predicate Past(h: History, g: History, out: set<Uid>) {
    && g.contents == h.contents - out && g.committed == Rest(h.committed, out)
    && g.acked == Rest(h.acked, out) && g.dropped == Rest(h.dropped, out)
  }

  ghost predicate Others(m: multiset<Uid>, n: multiset<Uid>, out: set<Uid>) {
    forall u: Uid :: n[u] == if u in out then 0 else m[u]
  }

  /** its memory, */
  ghost predicate Memory(s: Store, t: Store, out: set<Uid>) {
    && t.phase == s.phase && t.count == s.count - out && t.inflight == s.inflight - out && t.doomed == s.doomed - out
    && Others(s.decs, t.decs, out) && Others(s.leaked, t.leaked, out)
    && (s.phase.ResetSent? || s.phase.ResetFailed? ==> s.phase.todo != {})
  }

  /** and its contents, those aside that nothing refers to. */
  ghost predicate Bodies(s: Store, t: Store, out: set<Uid>) {
    && (forall u :: u in t.disk.messages ==> u !in out && u in s.disk.messages && s.disk.messages[u] == t.disk.messages[u])
    && (forall u :: u in s.disk.messages && u !in out && u !in t.disk.messages ==> Dead(s, u))
  }

  ghost predicate Alike(s: Store, t: Store, out: set<Uid>) {
    Queues(s.disk, t.disk, out) && Past(s.hist, t.hist, out) && Memory(s, t, out)
  }

  ghost predicate Sees(s: Store, t: Store, out: set<Uid>) {
    Alike(s, t, out) && Bodies(s, t, out)
  }

  // ------------------------------------------------------------ narrowing a step

  function Elsewhere(acks: seq<Ref>, out: set<Uid>): seq<Ref> {
    if acks == [] then []
    else
      var k := |acks| - 1;
      Elsewhere(acks[..k], out) + if acks[k].uid in out then [] else [acks[k]]
  }

  /** What a step does to the other uids. */
  function Narrow(step: Step, out: set<Uid>): seq<Step> {
    match step
    case Content(batch) => [Content(batch - out)]
    case MakeReady(dest, uids) => [MakeReady(dest, uids - out)]
    case CountNew(uid) => if uid in out then [] else [step]
    case Retrieve(dest, uids) => [Retrieve(dest, uids - out)]
    case Ack(acks) => [Ack(Elsewhere(acks, out))]
    case CountDec(uid) => if uid in out then [] else [step]
    case Nack(refs, now) => [Nack(Rest(refs, out), now)]
    case PermError(refs, now) => [PermError(Rest(refs, out), now)]
    case PurgeSelect(uid) => if uid in out then [] else [step]
    case PurgeForget(uid) => if uid in out then [] else [step]
    case _ => [step]
  }

  lemma RefsToRest(dest: Dest, uids: set<Uid>, out: set<Uid>)
    ensures RefsTo(dest, uids - out) == Rest(RefsTo(dest, uids), out)
  {
  }

  lemma RestUnion(a: set<Ref>, b: set<Ref>, out: set<Uid>)
    ensures Rest(a + b, out) == Rest(a, out) + Rest(b, out)
    ensures Rest(a - b, out) == Rest(a, out) - Rest(b, out)
  {
  }

  lemma UidsRest(a: set<Ref>, out: set<Uid>)
    ensures Uids(Rest(a, out)) == Uids(a) - out
  {
    forall u | u in Uids(a) - out ensures u in Uids(Rest(a, out)) {
      var r :| r in a && r.uid == u;
      assert r in Rest(a, out);
    }
  }

  lemma OthersSets(a: set<Uid>, out: set<Uid>)
    ensures Others(multiset(a), multiset(a - out), out)
  {
  }

  lemma OthersAdd(a: multiset<Uid>, b: multiset<Uid>, x: multiset<Uid>, y: multiset<Uid>, out: set<Uid>)
    requires Others(a, x, out) && Others(b, y, out)
    ensures Others(a + b, x + y, out) && Others(a - b, x - y, out)
  {
  }

  lemma ContentAlike(s: Store, t: Store, batch: map<Uid, string>, out: set<Uid>)
    requires Alike(s, t, out)
    ensures Alike(DoContent(s, batch), DoContent(t, batch - out), out)
  {
    assert (s.hist.contents + batch) - out == (s.hist.contents - out) + (batch - out);
    ZerosNarrowed(s.inflight, batch, out);
  }

  lemma ZerosNarrowed(m: map<Uid, nat>, batch: map<Uid, string>, out: set<Uid>)
    ensures (m + map u | u in batch :: 0) - out == (m - out) + map u | u in batch - out :: 0
  {
  }

  lemma ReadyAlike(s: Store, t: Store, dest: Dest, uids: set<Uid>, out: set<Uid>)
    requires Alike(s, t, out)
    ensures Alike(DoReady(s, dest, uids), DoReady(t, dest, uids - out), out)
  {
    RefsToRest(dest, uids, out);
    RestUnion(s.disk.ready, RefsTo(dest, uids), out);
    RestUnion(s.hist.committed, RefsTo(dest, uids), out);
    assert DoReady(t, dest, uids - out).inflight == DoReady(s, dest, uids).inflight - out;
  }

  lemma CountAlike(s: Store, t: Store, u: Uid, out: set<Uid>)
    requires Alike(s, t, out) && u in s.inflight
    ensures if u in out then Alike(DoCount(s, u), t, out) else u in t.inflight && Alike(DoCount(s, u), DoCount(t, u), out)
  {
    NewNarrowed(s.count, u, s.inflight[u], out);
    assert (s.inflight - {u}) - out == (s.inflight - out) - {u};
    assert u in out ==> (s.inflight - out) - {u} == s.inflight - out;
  }

  lemma NewNarrowed(count: map<Uid, int>, u: Uid, init: int, out: set<Uid>)
    ensures New(count, u, init) - out == if u in out then count - out else New(count - out, u, init)
    ensures Dec(count, u) - out == if u in out then count - out else Dec(count - out, u)
    ensures (count - {u}) - out == if u in out then count - out else (count - out) - {u}
  {
  }

  lemma DecAlike(s: Store, t: Store, u: Uid, out: set<Uid>)
    requires Alike(s, t, out)
    ensures if u in out then Alike(DoDec(s, u), t, out) else Alike(DoDec(s, u), DoDec(t, u), out)
  {
    NewNarrowed(s.count, u, 0, out);
    OthersOne(s.decs, t.decs, u, out);
    OthersOne(s.leaked, t.leaked, u, out);
  }

  lemma OthersOne(m: multiset<Uid>, n: multiset<Uid>, u: Uid, out: set<Uid>)
    requires Others(m, n, out)
    ensures if u in out then Others(m + multiset{u}, n, out) && Others(m - multiset{u}, n, out)
            else Others(m + multiset{u}, n + multiset{u}, out) && Others(m - multiset{u}, n - multiset{u}, out)
  {
  }

  lemma ForgetAlike(s: Store, t: Store, u: Uid, out: set<Uid>)
    requires Alike(s, t, out)
    ensures if u in out then Alike(DoForget(s, u), t, out) else Alike(DoForget(s, u), DoForget(t, u), out)
  {
    NewNarrowed(s.count, u, 0, out);
    assert (s.doomed - {u}) - out == (s.doomed - out) - {u};
    assert u in out ==> (s.doomed - out) - {u} == s.doomed - out;
  }

  lemma SelectAlike(s: Store, t: Store, u: Uid, out: set<Uid>)
    requires Alike(s, t, out)
    ensures
      if u in out then Alike(s.(doomed := s.doomed + {u}), t, out)
      else Alike(s.(doomed := s.doomed + {u}), t.(doomed := t.doomed + {u}), out)
  {
    assert (s.doomed + {u}) - out == (s.doomed - out) + ({u} - out);
  }

  // ------------------------------------------------------------ queues

  lemma AckOneAlike(s: Store, t: Store, r: Ref, out: set<Uid>)
    requires Alike(s, t, out)
    ensures if r.uid in out then Alike(AckOne(s, r), t, out) else Alike(AckOne(s, r), AckOne(t, r), out)
  {
    RestUnion(s.disk.sent, {r}, out);
    RestUnion(s.hist.acked, {r}, out);
    assert Rest({r}, out) == if r.uid in out then {} else {r};
    OthersOne(s.decs, t.decs, r.uid, out);
  }

  lemma {:induction false} AckAlike(s: Store, t: Store, acks: seq<Ref>, out: set<Uid>)
    requires Alike(s, t, out)
    ensures Alike(AckAll(s, acks), AckAll(t, Elsewhere(acks, out)), out)
  {
    if acks == [] {
    } else {
      var k := |acks| - 1;
      AckAlike(s, t, acks[..k], out);
      AckOneAlike(AckAll(s, acks[..k]), AckAll(t, Elsewhere(acks[..k], out)), acks[k], out);
      AckSnoc(t, Elsewhere(acks[..k], out), acks[k]);
      assert Elsewhere(acks[..k], out) + [] == Elsewhere(acks[..k], out);
    }
  }

  lemma AckSnoc(t: Store, acks: seq<Ref>, r: Ref)
    ensures AckAll(t, acks + [r]) == AckOne(AckAll(t, acks), r)
  {
    assert (acks + [r])[..|acks|] == acks;
  }

  lemma {:induction false} ElsewhereIs(acks: seq<Ref>, out: set<Uid>)
    ensures forall r :: r in Elsewhere(acks, out) <==> r in acks && r.uid !in out
    ensures Distinct(acks) ==> Distinct(Elsewhere(acks, out))
  {
    if acks == [] {
    } else {
      var k := |acks| - 1;
      ElsewhereIs(acks[..k], out);
      assert acks == acks[..k] + [acks[k]];
      if Distinct(acks) { assert acks[k] !in acks[..k]; }
    }
  }

  lemma NackAlike(s: Store, t: Store, refs: set<Ref>, now: int, out: set<Uid>)
    requires Alike(s, t, out)
    ensures Alike(s.(disk := NackTx(s.disk, refs, now)), t.(disk := NackTx(t.disk, Rest(refs, out), now)), out)
    ensures Alike(s.(disk := PermTx(s.disk, refs, now)), t.(disk := PermTx(t.disk, Rest(refs, out), now)), out)
  {
    RestUnion(s.disk.sent, refs, out);
    StampsNarrowed(s.disk.failed, refs, Conv.TimeBytes(now), out);
    StampsNarrowed(s.disk.perm, refs, Conv.TimeBytes(now), out);
  }

  lemma StampsNarrowed(m: map<Ref, Data>, refs: set<Ref>, stamp: Data, out: set<Uid>)
    ensures
      RestMap(m + map r | r in refs :: stamp, out) == RestMap(m, out) + map r | r in Rest(refs, out) :: stamp
  {
  }

  lemma RetryQueues(d: Disk, e: Disk, dest: Dest, now: int, out: set<Uid>)
    requires Queues(d, e, out)
    ensures Expired(e, dest, now) == Rest(Expired(d, dest, now), out) && Invalid(e, dest) == Rest(Invalid(d, dest), out)
    ensures Queues(RetryTx(d, dest, now), RetryTx(e, dest, now), out)
  {
    var x, y := Expired(d, dest, now), Invalid(d, dest);
    assert Expired(e, dest, now) == Rest(x, out) && Invalid(e, dest) == Rest(y, out);
    RestUnion(d.ready, x, out);
    RestUnion(x, y, out);
    MapLess(d.failed, x + y, out);
  }

  lemma MapLess(m: map<Ref, Data>, refs: set<Ref>, out: set<Uid>)
    ensures RestMap(m - refs, out) == RestMap(m, out) - Rest(refs, out)
  {
  }

  lemma RetryAlike(s: Store, t: Store, dest: Dest, now: int, out: set<Uid>)
    requires Alike(s, t, out)
    ensures Alike(DoRetry(s, dest, now), DoRetry(t, dest, now), out)
  {
    RetryQueues(s.disk, t.disk, dest, now, out);
    var y := Invalid(s.disk, dest);
    RestUnion(s.hist.dropped, y, out);
    UidsRest(y, out);
    OthersSets(Uids(y), out);
    OthersAdd(s.leaked, multiset(Uids(y)), t.leaked, multiset(Uids(y) - out), out);
  }

  function Stuck(refs: set<Ref>, dest: Dest): set<Ref> {
    set r | r in refs && r.dest == dest
  }

  lemma SentParts(d: Disk, dest: Dest)
    ensures SentTx(d, dest) == d.(sent := d.sent - Stuck(d.sent, dest), ready := d.ready + Stuck(d.sent, dest))
  {
  }

  lemma StuckRest(refs: set<Ref>, dest: Dest, out: set<Uid>)
    ensures Stuck(Rest(refs, out), dest) == Rest(Stuck(refs, dest), out)
  {
  }

  lemma SentQueues(d: Disk, e: Disk, dest: Dest, out: set<Uid>)
    requires Queues(d, e, out)
    ensures Queues(SentTx(d, dest), SentTx(e, dest), out)
  {
    SentParts(d, dest);
    SentParts(e, dest);
    StuckRest(d.sent, dest, out);
    RestUnion(d.sent, Stuck(d.sent, dest), out);
    RestUnion(d.ready, Stuck(d.sent, dest), out);
  }

  lemma QueuesHeld(d: Disk, e: Disk, out: set<Uid>)
    requires Queues(d, e, out)
    ensures e.Settled() == Rest(d.Settled(), out) && e.Held() == Rest(d.Held(), out)
    ensures Uids(e.Settled()) == Uids(d.Settled()) - out
  {
    assert e.Settled() == Rest(d.Settled(), out);
    UidsRest(d.Settled(), out);
  }

  lemma DestsRest(refs: set<Ref>, u: Uid, out: set<Uid>)
    requires u !in out
    ensures DestsOf(Rest(refs, out), u) == DestsOf(refs, u)
  {
  }

  lemma KeysRest(m: map<Ref, Data>, out: set<Uid>)
    ensures RestMap(m, out).Keys == Rest(m.Keys, out)
  {
  }

  lemma TallyRest(a: set<Ref>, b: set<Ref>, c: set<Ref>, out: set<Uid>)
    ensures Tally(Rest(a, out), Rest(b, out), Rest(c, out)) == Tally(a, b, c) - out
  {
    var x, y := Tally(Rest(a, out), Rest(b, out), Rest(c, out)), Tally(a, b, c) - out;
    RestUnion(a, b, out);
    RestUnion(a + b, c, out);
    UidsRest(a + b + c, out);
    forall u | u in y ensures x[u] == y[u] {
      DestsRest(a, u, out);
      DestsRest(b, u, out);
      DestsRest(c, u, out);
    }
  }

  lemma CountedAlike(d: Disk, e: Disk, out: set<Uid>)
    requires Queues(d, e, out)
    ensures InitialCount(e) == InitialCount(d) - out
  {
    KeysRest(d.failed, out);
    KeysRest(d.perm, out);
    TallyRest(d.ready, d.failed.Keys, d.perm.Keys, out);
  }

  // ------------------------------------------------------------ contents

  /** A content that some queue refers to is there in both. */
  lemma BodyOf(s: Store, t: Store, r: Ref, out: set<Uid>)
    requires Sees(s, t, out) && r in s.disk.Held() && r.uid !in out
    ensures r.uid in s.disk.messages <==> r.uid in t.disk.messages
    ensures r.uid in s.disk.messages ==> s.disk.messages[r.uid] == t.disk.messages[r.uid]
  {
  }

  lemma UnusableRest(dec: string -> bool, s: Store, t: Store, dest: Dest, uids: set<Uid>, out: set<Uid>)
    requires Sees(s, t, out) && RefsTo(dest, uids) <= s.disk.ready
    ensures Unusable(dec, t.disk, uids - out) == Unusable(dec, s.disk, uids) - out
  {
    forall u | u in uids - out
      ensures u in Unusable(dec, t.disk, uids - out) <==> u in Unusable(dec, s.disk, uids)
    {
      assert Ref(dest, u) in RefsTo(dest, uids);
      BodyOf(s, t, Ref(dest, u), out);
    }
  }

  lemma RetrieveAlike(dec: string -> bool, s: Store, t: Store, dest: Dest, uids: set<Uid>, out: set<Uid>)
    requires Sees(s, t, out) && RefsTo(dest, uids) <= s.disk.ready
    ensures Alike(DoRetrieve(dec, s, dest, uids), DoRetrieve(dec, t, dest, uids - out), out)
  {
    var bad := Unusable(dec, s.disk, uids);
    UnusableRest(dec, s, t, dest, uids, out);
    RetrieveRefs(dest, uids, bad, out);
    RestUnion(s.disk.ready, RefsTo(dest, uids), out);
    RestUnion(s.disk.sent, RefsTo(dest, uids - bad), out);
    RestUnion(s.hist.dropped, RefsTo(dest, bad), out);
    OthersSets(bad, out);
    OthersAdd(s.leaked, multiset(bad), t.leaked, multiset(bad - out), out);
  }

  lemma RetrieveRefs(dest: Dest, uids: set<Uid>, bad: set<Uid>, out: set<Uid>)
    ensures RefsTo(dest, uids - out) == Rest(RefsTo(dest, uids), out)
    ensures RefsTo(dest, (uids - out) - (bad - out)) == Rest(RefsTo(dest, uids - bad), out)
    ensures RefsTo(dest, bad - out) == Rest(RefsTo(dest, bad), out)
  {
    RefsToRest(dest, uids, out);
    RefsToRest(dest, uids - bad, out);
    RefsToRest(dest, bad, out);
    assert (uids - out) - (bad - out) == (uids - bad) - out;
  }

  /** Contents follow a step that changes them alike, since what nothing refers to stays so. */
  lemma BodiesKept(dec: string -> bool, s: Store, t: Store, step: Step, t': Store, out: set<Uid>, gone: set<Uid>)
    requires Bodies(s, t, out) && Enabled(s, step)
    requires Apply(dec, s, step).disk.messages == s.disk.messages - gone && t'.disk.messages == t.disk.messages - (gone - out)
    ensures Bodies(Apply(dec, s, step), t', out)
  {
    forall u | u in Apply(dec, s, step).disk.messages && u !in out && u !in t'.disk.messages
      ensures Dead(Apply(dec, s, step), u)
    {
      StepDead(dec, s, step, u);
    }
  }

  lemma ContentBodies(dec: string -> bool, s: Store, t: Store, batch: map<Uid, string>, out: set<Uid>)
    requires Bodies(s, t, out) && Enabled(s, Content(batch))
    ensures Bodies(DoContent(s, batch), DoContent(t, batch - out), out)
  {
    forall u | u in s.disk.messages && u !in out && u !in t.disk.messages
      ensures Dead(DoContent(s, batch), u)
    {
      StepDead(dec, s, Content(batch), u);
    }
  }

  lemma PruneBodies(dec: string -> bool, s: Store, t: Store, out: set<Uid>)
    requires Sees(s, t, out) && s.phase.Pruning?
    ensures Bodies(Apply(dec, s, Prune), Apply(dec, t, Prune), out)
  {
    QueuesHeld(s.disk, t.disk, out);
    forall u | u in PruneTx(s.disk).messages && u !in out ensures u in PruneTx(t.disk).messages {
      var r :| r in s.disk.Settled() && r.uid == u;
      BodyOf(s, t, r, out);
    }
  }

  // ------------------------------------------------------------ one event

  /** What the other uids go through meanwhile. */
  ghost predicate Echoed(dec: string -> bool, s': Store, t: Store, steps: seq<Step>, out: set<Uid>) {
    Legal(dec, t, steps) && Sees(s', Exec(dec, t, steps), out)
  }

  lemma OneStep(dec: string -> bool, s': Store, t: Store, step: Step, out: set<Uid>)
    requires Enabled(t, step) && Sees(s', Apply(dec, t, step), out)
    ensures Echoed(dec, s', t, [step], out)
  {
    var none: seq<Step> := [];
    RunSnoc(dec, t, none, step);
    assert none + [step] == [step];
  }

  lemma SameBodies(dec: string -> bool, s: Store, t: Store, step: Step, t': Store, out: set<Uid>)
    requires Bodies(s, t, out) && Enabled(s, step)
    requires Apply(dec, s, step).disk.messages == s.disk.messages && t'.disk.messages == t.disk.messages
    ensures Bodies(Apply(dec, s, step), t', out)
  {
    assert s.disk.messages - {} == s.disk.messages && {} - out == {} && t.disk.messages - {} == t.disk.messages;
    BodiesKept(dec, s, t, step, t', out, {});
  }

  lemma ContentEchoes(dec: string -> bool, s: Store, t: Store, step: Step, out: set<Uid>)
    requires Sees(s, t, out) && step.Content? && Enabled(s, step)
    ensures Echoed(dec, Apply(dec, s, step), t, Narrow(step, out), out)
  {
    ContentAlike(s, t, step.batch, out);
    ContentBodies(dec, s, t, step.batch, out);
    OneStep(dec, Apply(dec, s, step), t, Content(step.batch - out), out);
  }

  lemma ReadyEchoes(dec: string -> bool, s: Store, t: Store, step: Step, out: set<Uid>)
    requires Sees(s, t, out) && step.MakeReady? && Enabled(s, step)
    ensures Echoed(dec, Apply(dec, s, step), t, Narrow(step, out), out)
  {
    var x := MakeReady(step.dest, step.uids - out);
    RefsToRest(step.dest, step.uids, out);
    assert Enabled(t, x);
    ReadyAlike(s, t, step.dest, step.uids, out);
    SameBodies(dec, s, t, step, Apply(dec, t, x), out);
    OneStep(dec, Apply(dec, s, step), t, x, out);
  }

  lemma RetrieveEchoes(dec: string -> bool, s: Store, t: Store, step: Step, out: set<Uid>)
    requires Sees(s, t, out) && step.Retrieve? && Enabled(s, step)
    ensures Echoed(dec, Apply(dec, s, step), t, Narrow(step, out), out)
  {
    var x := Retrieve(step.dest, step.uids - out);
    RefsToRest(step.dest, step.uids, out);
    assert Enabled(t, x);
    RetrieveAlike(dec, s, t, step.dest, step.uids, out);
    UnusableRest(dec, s, t, step.dest, step.uids, out);
    BodiesKept(dec, s, t, step, Apply(dec, t, x), out, Unusable(dec, s.disk, step.uids));
    OneStep(dec, Apply(dec, s, step), t, x, out);
  }

  /** Steps on one uid. */
  lemma SingleEchoes(dec: string -> bool, s: Store, t: Store, step: Step, out: set<Uid>)
    requires Sees(s, t, out) && Enabled(s, step)
    requires step.CountNew? || step.CountDec? || step.PurgeSelect? || step.PurgeForget?
    ensures Echoed(dec, Apply(dec, s, step), t, Narrow(step, out), out)
  {
    match step {
      case CountNew(u) => CountAlike(s, t, u, out);
      case CountDec(u) => DecAlike(s, t, u, out);
      case PurgeSelect(u) => SelectAlike(s, t, u, out);
      case PurgeForget(u) => ForgetAlike(s, t, u, out);
    }
    if step.uid in out {
      SameBodies(dec, s, t, step, t, out);
    } else {
      assert Enabled(t, step);
      SameBodies(dec, s, t, step, Apply(dec, t, step), out);
      OneStep(dec, Apply(dec, s, step), t, step, out);
    }
  }

  lemma AckMessages(s: Store, acks: seq<Ref>)
    ensures AckAll(s, acks).disk.messages == s.disk.messages
  {
  }

  lemma AckEchoes(dec: string -> bool, s: Store, t: Store, step: Step, out: set<Uid>)
    requires Sees(s, t, out) && step.Ack? && Enabled(s, step)
    ensures Echoed(dec, Apply(dec, s, step), t, Narrow(step, out), out)
  {
    var x := Ack(Elsewhere(step.acks, out));
    ElsewhereIs(step.acks, out);
    assert Enabled(t, x);
    AckAlike(s, t, step.acks, out);
    AckMessages(s, step.acks);
    AckMessages(t, x.acks);
    SameBodies(dec, s, t, step, Apply(dec, t, x), out);
    OneStep(dec, Apply(dec, s, step), t, x, out);
  }

  lemma NackEchoes(dec: string -> bool, s: Store, t: Store, step: Step, out: set<Uid>)
    requires Sees(s, t, out) && (step.Nack? || step.PermError?) && Enabled(s, step)
    ensures Echoed(dec, Apply(dec, s, step), t, Narrow(step, out), out)
  {
    var x := if step.Nack? then Nack(Rest(step.refs, out), step.now) else PermError(Rest(step.refs, out), step.now);
    assert Enabled(t, x);
    NackAlike(s, t, step.refs, step.now, out);
    SameBodies(dec, s, t, step, Apply(dec, t, x), out);
    OneStep(dec, Apply(dec, s, step), t, x, out);
  }

  lemma DeleteEchoes(dec: string -> bool, s: Store, t: Store, step: Step, out: set<Uid>)
    requires Sees(s, t, out) && step.PurgeDelete? && Enabled(s, step)
    ensures Echoed(dec, Apply(dec, s, step), t, Narrow(step, out), out)
  {
    assert Enabled(t, step);
    if step.committed {
      BodiesKept(dec, s, t, step, Apply(dec, t, step), out, s.doomed);
    } else {
      SameBodies(dec, s, t, step, Apply(dec, t, step), out);
    }
    OneStep(dec, Apply(dec, s, step), t, step, out);
  }

  lemma RetryEchoes(dec: string -> bool, s: Store, t: Store, step: Step, out: set<Uid>)
    requires Sees(s, t, out) && (step.RetryFailed? || step.RecoverFailed?) && Enabled(s, step)
    ensures Echoed(dec, Apply(dec, s, step), t, Narrow(step, out), out)
  {
    assert Enabled(t, step);
    RetryAlike(s, t, step.dest, step.now, out);
    SameBodies(dec, s, t, step, Apply(dec, t, step), out);
    OneStep(dec, Apply(dec, s, step), t, step, out);
  }

  /** The other steps of startup, and the crash before it. */
  lemma StartEchoes(dec: string -> bool, s: Store, t: Store, step: Step, out: set<Uid>)
    requires Sees(s, t, out) && Enabled(s, step)
    requires step.Crash? || step.RecoverSent? || step.InitCount?
    ensures Echoed(dec, Apply(dec, s, step), t, Narrow(step, out), out)
  {
    assert Enabled(t, step);
    if step.RecoverSent? {
      SentQueues(s.disk, t.disk, step.dest, out);
    } else if step.InitCount? {
      CountedAlike(s.disk, t.disk, out);
    } else {
      assert Kafka in DESTINATIONS;
    }
    SameBodies(dec, s, t, step, Apply(dec, t, step), out);
    OneStep(dec, Apply(dec, s, step), t, step, out);
  }

  lemma PruneEchoes(dec: string -> bool, s: Store, t: Store, out: set<Uid>)
    requires Sees(s, t, out) && s.phase.Pruning?
    ensures Echoed(dec, Apply(dec, s, Prune), t, [Prune], out)
  {
    PruneBodies(dec, s, t, out);
    OneStep(dec, Apply(dec, s, Prune), t, Prune, out);
  }

  lemma StepEchoes(dec: string -> bool, s: Store, t: Store, step: Step, out: set<Uid>)
    requires Sees(s, t, out) && Enabled(s, step)
    ensures Echoed(dec, Apply(dec, s, step), t, Narrow(step, out), out)
  {
    match step {
      case Content(_) => ContentEchoes(dec, s, t, step, out);
      case MakeReady(_, _) => ReadyEchoes(dec, s, t, step, out);
      case Retrieve(_, _) => RetrieveEchoes(dec, s, t, step, out);
      case Ack(_) => AckEchoes(dec, s, t, step, out);
      case Nack(_, _) => NackEchoes(dec, s, t, step, out);
      case PermError(_, _) => NackEchoes(dec, s, t, step, out);
      case PurgeDelete(_) => DeleteEchoes(dec, s, t, step, out);
      case RetryFailed(_, _) => RetryEchoes(dec, s, t, step, out);
      case RecoverFailed(_, _) => RetryEchoes(dec, s, t, step, out);
      case CountNew(_) => SingleEchoes(dec, s, t, step, out);
      case CountDec(_) => SingleEchoes(dec, s, t, step, out);
      case PurgeSelect(_) => SingleEchoes(dec, s, t, step, out);
      case PurgeForget(_) => SingleEchoes(dec, s, t, step, out);
      case Prune => PruneEchoes(dec, s, t, out);
      case _ => StartEchoes(dec, s, t, step, out);
    }
  }

  // ------------------------------------------------------------ giving up

  ghost function SkipSent(todo: set<Dest>): seq<Step> {
    if todo == {} then [] else var d :| d in todo; [RecoverSent(d)] + SkipSent(todo - {d})
  }

  /** At this time no entry is due. */
  const LONG_AGO: int := -TWO63

  ghost function SkipFailed(todo: set<Dest>): seq<Step> {
    if todo == {} then [] else var d :| d in todo; [RecoverFailed(d, LONG_AGO)] + SkipFailed(todo - {d})
  }

  /** One step in front. */
  lemma RunCons(dec: string -> bool, t: Store, step: Step, more: seq<Step>)
    requires Enabled(t, step) && Legal(dec, Apply(dec, t, step), more)
    ensures Legal(dec, t, [step] + more) && Exec(dec, t, [step] + more) == Exec(dec, Apply(dec, t, step), more)
  {
    var none: seq<Step> := [];
    RunSnoc(dec, t, none, step);
    assert none + [step] == [step];
    RunConcat(dec, t, [step], more);
  }

  lemma NothingSent(d: Disk, dest: Dest)
    requires d.sent == {}
    ensures SentTx(d, dest) == d
  {
    SentParts(d, dest);
    assert Stuck(d.sent, dest) == {};
  }

  /** With nothing in Sent, resetting it changes nothing. */
  lemma {:induction false} SentSkipped(dec: string -> bool, t: Store)
    requires t.phase.ResetSent? && t.phase.todo != {} && t.disk.sent == {}
    ensures Legal(dec, t, SkipSent(t.phase.todo))
    ensures Exec(dec, t, SkipSent(t.phase.todo)) == t.(phase := ResetFailed(DESTINATIONS))
    decreases t.phase.todo
  {
    var todo := t.phase.todo;
    var steps := SkipSent(todo);
    var d := steps[0].dest;
    assert d in todo && steps == [RecoverSent(d)] + SkipSent(todo - {d});
    NothingSent(t.disk, d);
    var t' := t.(phase := AfterSent(todo - {d}));
    assert Apply(dec, t, RecoverSent(d)) == t';
    if todo - {d} == {} {
      assert SkipSent(todo - {d}) == [];
    } else {
      SentSkipped(dec, t');
    }
    RunCons(dec, t, RecoverSent(d), SkipSent(todo - {d}));
  }

  lemma NothingDue(s: Store, dest: Dest)
    requires Stamped(s) && Disjoint(s.disk, s.hist)
    ensures DoRetry(s, dest, LONG_AGO) == s
  {
    RetryKeeps(s, dest, LONG_AGO);
    var e := Expired(s.disk, dest, LONG_AGO);
    forall r | r in s.disk.failed ensures r !in e { Conv.TimeFits(s.disk.failed[r]); }
    assert e == {} && s.disk.ready + {} == s.disk.ready;
    assert s.disk.failed - ({} + {}) == s.disk.failed;
  }

  lemma {:induction false} FailedSkipped(dec: string -> bool, t: Store)
    requires t.phase.ResetFailed? && t.phase.todo != {} && Stamped(t) && Disjoint(t.disk, t.hist)
    ensures Legal(dec, t, SkipFailed(t.phase.todo))
    ensures Exec(dec, t, SkipFailed(t.phase.todo)) == t.(phase := Pruning)
    decreases t.phase.todo
  {
    var todo := t.phase.todo;
    var steps := SkipFailed(todo);
    var d := steps[0].dest;
    assert d in todo && steps == [RecoverFailed(d, LONG_AGO)] + SkipFailed(todo - {d});
    NothingDue(t, d);
    var t' := t.(phase := AfterFailed(todo - {d}));
    assert Apply(dec, t, RecoverFailed(d, LONG_AGO)) == t';
    if todo - {d} == {} {
      assert SkipFailed(todo - {d}) == [];
    } else {
      FailedSkipped(dec, t');
    }
    RunCons(dec, t, RecoverFailed(d, LONG_AGO), SkipFailed(todo - {d}));
  }

  /** The steps of the other uids while an event happens. */
  ghost function Echo(s: Store, e: Event, out: set<Uid>): seq<Step>
    requires Possible(s, e)
  {
    match e
    case Do(step) => Narrow(step, out)
    case GiveUpSent => SkipSent(s.phase.todo)
    case GiveUpFailed => SkipFailed(s.phase.todo)
    case GiveUpPrune => [Prune]
  }

  lemma GiveUpSentEchoes(dec: string -> bool, s: Store, t: Store, out: set<Uid>)
    requires Sees(s, t, out) && s.phase.ResetSent? && Uids(s.disk.sent) <= out
    ensures Echoed(dec, Happen(dec, s, GiveUpSent), t, Echo(s, GiveUpSent, out), out)
  {
    forall r | r in s.disk.sent ensures r.uid in out { assert r.uid in Uids(s.disk.sent); }
    assert t.disk.sent == {};
    SentSkipped(dec, t);
    assert Kafka in DESTINATIONS;
    PhaseOnly(s, t, ResetFailed(DESTINATIONS), out);
  }

  lemma PhaseOnly(s: Store, t: Store, phase: Phase, out: set<Uid>)
    requires Sees(s, t, out) && (phase.ResetSent? || phase.ResetFailed? ==> phase.todo != {})
    ensures Sees(s.(phase := phase), t.(phase := phase), out)
  {
    assert forall u :: Dead(s, u) ==> Dead(s.(phase := phase), u);
  }

  lemma GiveUpFailedEchoes(dec: string -> bool, s: Store, t: Store, out: set<Uid>)
    requires Sees(s, t, out) && s.phase.ResetFailed? && Inv(dec, t)
    ensures Echoed(dec, Happen(dec, s, GiveUpFailed), t, Echo(s, GiveUpFailed, out), out)
  {
    FailedSkipped(dec, t);
    PhaseOnly(s, t, Pruning, out);
  }

  /** A content that pruning would have deleted is one that nothing refers to. */
  lemma OrphanDead(dec: string -> bool, s: Store, t: Store, u: Uid, out: set<Uid>)
    requires Sees(s, t, out) && s.phase.Pruning? && Inv(dec, t)
    requires u in t.disk.messages && u !in PruneTx(t.disk).messages
    ensures Dead(s, u)
  {
    QueuesHeld(s.disk, t.disk, out);
    assert t.disk.sent == {} && t.disk.Held() == t.disk.Settled();
    forall r | r in s.disk.Held() ensures r.uid != u {
      assert r.uid !in out ==> r in t.disk.Settled();
      assert r in t.disk.Settled() ==> r.uid in Uids(t.disk.Settled());
    }
  }

  lemma GiveUpPruneEchoes(dec: string -> bool, s: Store, t: Store, out: set<Uid>)
    requires Sees(s, t, out) && s.phase.Pruning? && Inv(dec, t)
    ensures Echoed(dec, Happen(dec, s, GiveUpPrune), t, [Prune], out)
  {
    UnprunedBodies(dec, s, t, out);
    OneStep(dec, s.(phase := Counting), t, Prune, out);
  }

  lemma UnprunedBodies(dec: string -> bool, s: Store, t: Store, out: set<Uid>)
    requires Sees(s, t, out) && s.phase.Pruning? && Inv(dec, t)
    ensures Bodies(s.(phase := Counting), Apply(dec, t, Prune), out)
  {
    forall u | u in s.disk.messages && u !in out && u !in PruneTx(t.disk).messages ensures Dead(s.(phase := Counting), u) {
      if u in t.disk.messages { OrphanDead(dec, s, t, u, out); }
      SameDead(s, Counting, u);
    }
  }

  lemma SameDead(s: Store, phase: Phase, u: Uid)
    ensures Dead(s.(phase := phase), u) <==> Dead(s, u)
  {
  }

  lemma EventEchoes(dec: string -> bool, s: Store, t: Store, e: Event, out: set<Uid>)
    requires Sees(s, t, out) && Possible(s, e) && Inv(dec, t)
    requires e.GiveUpSent? ==> Uids(s.disk.sent) <= out
    ensures Echoed(dec, Happen(dec, s, e), t, Echo(s, e, out), out)
  {
    match e {
      case Do(step) => StepEchoes(dec, s, t, step, out);
      case GiveUpSent => GiveUpSentEchoes(dec, s, t, out);
      case GiveUpFailed => GiveUpFailedEchoes(dec, s, t, out);
      case GiveUpPrune => GiveUpPruneEchoes(dec, s, t, out);
    }
  }

  // ------------------------------------------------------------ whole runs

  /** The run of the other uids. */
  ghost function Mirror(dec: string -> bool, events: seq<Event>, out: set<Uid>): seq<Step>
    requires Lawful(dec, events)
  {
    if events == [] then []
    else
      var k := |events| - 1;
      Mirror(dec, events[..k], out) + Echo(After(dec, events[..k]), events[k], out)
  }

  /**
   Whatever startups fail, the uids that were never left in Sent by one of them
   go through a legal run of the store whose startups do not fail.
   */
  lemma {:induction false} MirrorRuns(dec: string -> bool, events: seq<Event>, out: set<Uid>)
    requires Lawful(dec, events) && Exposed(dec, events) <= out
    ensures Legal(dec, FIRST, Mirror(dec, events, out))
    ensures Sees(After(dec, events), Exec(dec, FIRST, Mirror(dec, events, out)), out)
  {
    if events == [] {
      assert Kafka in DESTINATIONS;
      assert FIRST.count - out == map[] && FIRST.inflight - out == map[] && FIRST.hist.contents - out == map[];
    } else {
      var k := |events| - 1;
      MirrorRuns(dec, events[..k], out);
      var s, steps := After(dec, events[..k]), Mirror(dec, events[..k], out);
      var t := Exec(dec, FIRST, steps);
      assert Inv(dec, t) by {
        FirstInv(dec);
        RunInv(dec, FIRST, steps);
      }
      EventEchoes(dec, s, t, events[k], out);
      RunConcat(dec, FIRST, steps, Echo(s, events[k], out));
    }
  }

  /**
   No loss, with failing startups anywhere: after any events, an entry that was
   committed and not acknowledged, whose uid no startup has left in Sent, is in
   exactly one queue and its content is stored as it was ingested.
   */
  lemma NoLossButStranded(dec: string -> bool, events: seq<Event>, r: Ref)
    requires Lawful(dec, events) && r.uid !in Exposed(dec, events)
    requires r in After(dec, events).hist.committed
    ensures
      var s := After(dec, events);
      && r.uid in s.hist.contents
      && (Good(dec, s.hist.contents[r.uid]) && r !in s.hist.acked ==>
            Places(s.disk, r) == 1 && r.uid in s.disk.messages && s.disk.messages[r.uid] == s.hist.contents[r.uid])
      && (r in s.hist.acked ==> Places(s.disk, r) == 0)
  {
    var out := Exposed(dec, events);
    var steps := Mirror(dec, events, out);
    MirrorRuns(dec, events, out);
    var s, t := After(dec, events), Exec(dec, FIRST, steps);
    HistoryIsRun(dec, steps);
    NoLoss(dec, steps, r);
    SamePlaces(s.disk, t.disk, r, out);
  }

  lemma SamePlaces(d: Disk, e: Disk, r: Ref, out: set<Uid>)
    requires Queues(d, e, out) && r.uid !in out
    ensures Places(d, r) == Places(e, r)
  {
  }

  /** A uid that GC selects, if it was never left in Sent, is one that nothing refers to. */
  lemma SelectedDead(dec: string -> bool, events: seq<Event>, u: Uid)
    requires Lawful(dec, events) && u !in Exposed(dec, events) && u in Garbage(After(dec, events).count)
    ensures Dead(After(dec, events), u)
  {
    var out := Exposed(dec, events);
    var steps := Mirror(dec, events, out);
    MirrorRuns(dec, events, out);
    var s, t := After(dec, events), Exec(dec, FIRST, steps);
    assert Counted(t) by {
      FirstInv(dec);
      RunInv(dec, FIRST, steps);
    }
    PurgeSafe(dec, steps, [], u);
    forall r | r in s.disk.Held() ensures r.uid != u {
      assert r == Ref(r.dest, r.uid);
      SamePlaces(s.disk, t.disk, Ref(r.dest, u), out);
    }
  }

  lemma {:induction false} EventsDead(dec: string -> bool, events: seq<Event>, more: seq<Event>, u: Uid)
    requires Lawful(dec, events) && Lawful(dec, events + more) && Dead(After(dec, events), u)
    ensures Dead(After(dec, events + more), u)
  {
    if more == [] {
      assert events + more == events;
    } else {
      var k := |more| - 1;
      LastOf(events, more);
      EventsDead(dec, events, more[..k], u);
      EventDead(dec, After(dec, events + more[..k]), more[k], u);
    }
  }

  lemma EventDead(dec: string -> bool, s: Store, e: Event, u: Uid)
    requires Dead(s, u) && Possible(s, e)
    ensures Dead(Happen(dec, s, e), u)
  {
    match e {
      case Do(step) => StepDead(dec, s, step, u);
      case _ => SameDead(s, Happen(dec, s, e).phase, u);
    }
  }

  lemma LastOf(events: seq<Event>, more: seq<Event>)
    requires more != []
    ensures
      var all, k := events + more, |more| - 1;
      all[..|all| - 1] == events + more[..k] && all[|all| - 1] == more[k]
  {
  }

  /**
   Purging is safe with failing startups too: a uid that GC selects and that no
   startup has left in Sent is in no queue, then and after whatever happens.
   */
  lemma PurgeSafeButStranded(dec: string -> bool, events: seq<Event>, more: seq<Event>, u: Uid)
    requires Lawful(dec, events) && Lawful(dec, events + more)
    requires u in Garbage(After(dec, events).count) && u !in Exposed(dec, events)
    ensures forall d :: Places(After(dec, events + more).disk, Ref(d, u)) == 0
  {
    SelectedDead(dec, events, u);
    EventsDead(dec, events, more, u);
    var s := After(dec, events + more);
    forall d ensures Places(s.disk, Ref(d, u)) == 0 {
      assert Ref(d, u).uid == u;
      assert Ref(d, u) !in s.disk.Held();
    }
  }

  // ------------------------------------------------------------ the exception is real

  lemma Then(dec: string -> bool, events: seq<Event>, e: Event)
    requires Lawful(dec, events) && Possible(After(dec, events), e)
    ensures Lawful(dec, events + [e]) && After(dec, events + [e]) == Happen(dec, After(dec, events), e)
  {
    assert (events + [e])[..|events|] == events;
  }

  /** Nothing knows of this uid. */
  ghost predicate Fresh(s: Store, u: Uid) {
    && u !in s.hist.contents && u !in s.inflight
    && (forall r :: r in s.disk.Held() + s.hist.committed + s.hist.acked ==> r.uid != u)
  }

  lemma FreshUids(dec: string -> bool, events: seq<Event>, u: Uid)
    requires Lawful(dec, events) && u !in Exposed(dec, events) && u !in After(dec, events).hist.contents
    ensures Fresh(After(dec, events), u)
  {
    var out := Exposed(dec, events);
    MirrorRuns(dec, events, out);
    var s, t := After(dec, events), Exec(dec, FIRST, Mirror(dec, events, out));
    assert Placed(t) && Contents(dec, t) by {
      FirstInv(dec);
      RunInv(dec, FIRST, Mirror(dec, events, out));
    }
    forall r | r in s.disk.Held() + s.hist.committed + s.hist.acked ensures r.uid != u {
      QueuesHeld(s.disk, t.disk, out);
      assert r.uid !in out ==> r in t.hist.committed;
    }
  }

  /** A message for one destination that is stored, handed out and not yet answered. */
  function Sending(u: Uid, content: string): seq<Event> {
    [Do(Content(map[u := content])), Do(MakeReady(Kafka, {u})), Do(CountNew(u)), Do(Retrieve(Kafka, {u}))]
  }

  /** The store is up and has sent one message of this uid. */
  ghost predicate JustSent(s: Store, u: Uid, content: string) {
    && u in s.hist.contents && s.hist.contents[u] == content
    && Ref(Kafka, u) in s.disk.sent && Ref(Kafka, u) in s.hist.committed && Ref(Kafka, u) !in s.hist.acked
    && (forall r :: r in s.disk.Settled() ==> r.uid != u)
  }

  /** It is stored, and only its Ready queue refers to it. */
  ghost predicate JustStored(s: Store, u: Uid, content: string) {
    && s.phase.Up? && u in s.hist.contents && s.hist.contents[u] == content
    && u in s.disk.messages && s.disk.messages[u] == content
    && Ref(Kafka, u) in s.disk.ready && Ref(Kafka, u) in s.hist.committed && Ref(Kafka, u) !in s.hist.acked
    && (forall r :: r in s.disk.Held() && r.uid == u ==> r == Ref(Kafka, u))
    && Ref(Kafka, u) !in s.disk.sent + s.disk.failed.Keys + s.disk.perm.Keys
  }

  lemma StoreOne(dec: string -> bool, s: Store, u: Uid, content: string) returns (a: Store, b: Store, c: Store)
    requires s.phase.Up? && Fresh(s, u)
    ensures Enabled(s, Content(map[u := content])) && a == Apply(dec, s, Content(map[u := content]))
    ensures Enabled(a, MakeReady(Kafka, {u})) && b == Apply(dec, a, MakeReady(Kafka, {u}))
    ensures Enabled(b, CountNew(u)) && c == Apply(dec, b, CountNew(u))
    ensures JustStored(c, u, content)
  {
    assert RefsTo(Kafka, {u}) == {Ref(Kafka, u)};
    a := DoContent(s, map[u := content]);
    b := DoReady(a, Kafka, {u});
    assert u in b.inflight;
    c := DoCount(b, u);
  }

  lemma SendOne(dec: string -> bool, s: Store, u: Uid, content: string)
    requires JustStored(s, u, content) && Good(dec, content)
    ensures Enabled(s, Retrieve(Kafka, {u})) && JustSent(Apply(dec, s, Retrieve(Kafka, {u})), u, content)
  {
    assert RefsTo(Kafka, {u}) == {Ref(Kafka, u)};
    assert Unusable(dec, s.disk, {u}) == {} && {u} - {} == {u};
  }

  /** A crash, and a startup whose first two passes fail at once. */
  const FAILING: seq<Event> := [Do(Crash), GiveUpSent, GiveUpFailed, Do(Prune), Do(InitCount)]

  lemma LoseOne(dec: string -> bool, s: Store, u: Uid, content: string) returns (a: Store, b: Store, c: Store, d: Store, e: Store)
    requires JustSent(s, u, content)
    ensures a == Happen(dec, s, FAILING[0])
    ensures Possible(a, FAILING[1]) && b == Happen(dec, a, FAILING[1]) && u in Uids(a.disk.sent)
    ensures Possible(b, FAILING[2]) && c == Happen(dec, b, FAILING[2])
    ensures Possible(c, FAILING[3]) && d == Happen(dec, c, FAILING[3])
    ensures Possible(d, FAILING[4]) && e == Happen(dec, d, FAILING[4])
    ensures Lost(e, u, content)
  {
    a := Boot(s.disk, s.hist);
    assert Ref(Kafka, u).uid in Uids(a.disk.sent);
    b := a.(phase := ResetFailed(DESTINATIONS));
    c := b.(phase := Pruning);
    d := Apply(dec, c, Prune);
    e := Apply(dec, d, InitCount);
  }

  /** The entry is there, committed and not acknowledged, and neither its content nor its count is. */
  ghost predicate Lost(s: Store, u: Uid, content: string) {
    && u in s.hist.contents && s.hist.contents[u] == content
    && Ref(Kafka, u) in s.disk.sent && Ref(Kafka, u) in s.hist.committed && Ref(Kafka, u) !in s.hist.acked
    && u !in s.disk.messages && u !in s.count
  }

  lemma SendRuns(dec: string -> bool, events: seq<Event>, u: Uid, content: string) returns (run: seq<Event>)
    requires Lawful(dec, events) && After(dec, events).phase.Up? && Fresh(After(dec, events), u) && Good(dec, content)
    ensures run == events + Sending(u, content) && Lawful(dec, run) && JustSent(After(dec, run), u, content)
  {
    var x := Sending(u, content);
    var a, b, c := StoreOne(dec, After(dec, events), u, content);
    SendOne(dec, c, u, content);
    run := Four(dec, events, x, a, b, c, Apply(dec, c, Retrieve(Kafka, {u})));
  }

  lemma LoseRuns(dec: string -> bool, events: seq<Event>, u: Uid, content: string) returns (run: seq<Event>)
    requires Lawful(dec, events) && JustSent(After(dec, events), u, content)
    ensures run == events + FAILING && Lawful(dec, run)
    ensures Lost(After(dec, run), u, content) && u in Exposed(dec, run)
  {
    var a, b, c, d, e := LoseOne(dec, After(dec, events), u, content);
    Then(dec, events, FAILING[0]);
    run := Four(dec, events + [FAILING[0]], FAILING[1..], b, c, d, e);
    assert events + [FAILING[0]] + FAILING[1..] == events + FAILING;
    ExposedGrows(dec, events + [FAILING[0]], FAILING[1..], u);
  }

  /**
   The exception is needed: whatever has happened to a store that is up, a new
   message that is sent before a crash loses its content when the next startup
   fails to reset Sent.
   */
  lemma FailedResetLoses(dec: string -> bool, events: seq<Event>, u: Uid, content: string) returns (run: seq<Event>)
    requires Lawful(dec, events) && After(dec, events).phase.Up? && Good(dec, content)
    requires u !in Exposed(dec, events) && u !in After(dec, events).hist.contents
    ensures run == events + Sending(u, content) + FAILING && Lawful(dec, run)
    ensures Lost(After(dec, run), u, content) && u in Exposed(dec, run)
  {
    FreshUids(dec, events, u);
    var sent := SendRuns(dec, events, u, content);
    run := LoseRuns(dec, sent, u, content);
  }

  lemma Two(dec: string -> bool, events: seq<Event>, e: Event, f: Event, a: Store, b: Store)
    requires Lawful(dec, events)
    requires Possible(After(dec, events), e) && a == Happen(dec, After(dec, events), e)
    requires Possible(a, f) && b == Happen(dec, a, f)
    ensures Lawful(dec, events + [e, f]) && After(dec, events + [e, f]) == b
  {
    Then(dec, events, e);
    Then(dec, events + [e], f);
    assert events + [e] + [f] == events + [e, f];
  }

  lemma Four(dec: string -> bool, events: seq<Event>, x: seq<Event>, a: Store, b: Store, c: Store, d: Store) returns (run: seq<Event>)
    requires Lawful(dec, events) && |x| == 4
    requires Possible(After(dec, events), x[0]) && a == Happen(dec, After(dec, events), x[0])
    requires Possible(a, x[1]) && b == Happen(dec, a, x[1])
    requires Possible(b, x[2]) && c == Happen(dec, b, x[2])
    requires Possible(c, x[3]) && d == Happen(dec, c, x[3])
    ensures run == events + x && Lawful(dec, run) && After(dec, run) == d
  {
    Two(dec, events, x[0], x[1], a, b);
    Two(dec, events + [x[0], x[1]], x[2], x[3], c, d);
    run := events + [x[0], x[1]] + [x[2], x[3]];
    TwoAndTwo(events, x);
  }

  lemma TwoAndTwo(events: seq<Event>, x: seq<Event>)
    requires |x| == 4
    ensures events + [x[0], x[1]] + [x[2], x[3]] == events + x
  {
  }

  lemma {:induction false} ExposedGrows(dec: string -> bool, events: seq<Event>, more: seq<Event>, u: Uid)
    requires more != [] && more[0].GiveUpSent? && Lawful(dec, events + more) && Lawful(dec, events)
    requires u in Uids(After(dec, events).disk.sent)
    ensures u in Exposed(dec, events + more)
  {
    var k := |more| - 1;
    LastOf(events, more);
    ExposedLast(dec, events + more);
    if k == 0 {
      assert events + more[..k] == events;
    } else {
      ExposedGrows(dec, events, more[..k], u);
    }
  }

  lemma ExposedLast(dec: string -> bool, events: seq<Event>)
    requires events != [] && Lawful(dec, events)
    ensures
      var k := |events| - 1;
      && Exposed(dec, events[..k]) <= Exposed(dec, events)
      && (events[k].GiveUpSent? ==> Uids(After(dec, events[..k]).disk.sent) <= Exposed(dec, events))
  {
  }
}
