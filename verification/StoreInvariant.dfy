/** What every step of the store keeps, and what follows for whole runs. */
module StoreInvariant {
  import opened Bytes
  import opened StoreState
  import Conv

  // ------------------------------------------------------------ the invariant

  /** No entry is in two queues, nor in a queue and acknowledged or dropped. */
  ghost predicate Disjoint(d: Disk, h: History) {
    && (forall r :: r in d.ready ==>
          r !in d.sent && r !in d.failed && r !in d.perm && r !in h.acked && r !in h.dropped)
    && (forall r :: r in d.sent ==> r !in d.failed && r !in d.perm && r !in h.acked && r !in h.dropped)
    && (forall r :: r in d.failed ==> r !in d.perm && r !in h.acked && r !in h.dropped)
    && (forall r :: r in d.perm ==> r !in h.acked && r !in h.dropped)
    && (forall r :: r in h.acked ==> r !in h.dropped)
  }

  /** Every entry ever committed to Ready is in exactly one place. */
  ghost predicate Placed(s: Store) {
    var d, h := s.disk, s.hist;
    && Disjoint(d, h)
    && h.committed == d.Held() + h.acked + h.dropped
    && (forall r :: r in h.committed ==> r.uid in h.contents)
  }

  /** Stored content is what was ingested, and is there for everything that still needs it. */
  ghost predicate Contents(dec: string -> bool, s: Store) {
    var d, c := s.disk, s.hist.contents;
    && (forall u :: u in d.messages ==> u in c && d.messages[u] == c[u])
    && (forall r :: r in d.Held() ==> r.uid in c && (Good(dec, c[r.uid]) ==> r.uid in d.messages))
    && (forall u :: u in s.inflight ==> u in c && (Good(dec, c[u]) ==> u in d.messages))
  }

  /** Only good content travels past Ready, and only bad content is dropped. */
  ghost predicate Judged(dec: string -> bool, s: Store) {
    var d, h := s.disk, s.hist;
    && (forall r :: r in d.sent + d.failed.Keys + d.perm.Keys + h.acked ==>
          r.uid in h.contents && Good(dec, h.contents[r.uid]))
    && (forall r :: r in h.dropped ==> r.uid in h.contents && !Good(dec, h.contents[r.uid]))
  }

  ghost predicate Stamped(s: Store) {
    forall r :: r in s.disk.failed ==> Conv.TimeOf(s.disk.failed[r]).1 > 0
  }

  /** How many queue entries a uid has. */
  ghost function Load(d: Disk, uid: Uid): nat {
    |DestsOf(d.Held(), uid)|
  }

  /** What a count, once taken, must amount to. */
  ghost function Owed(s: Store, uid: Uid): nat {
    Load(s.disk, uid) + s.decs[uid] + s.leaked[uid]
  }

  /** Counts are the entries they stand for, plus pending decrements, plus what leaked. */
  ghost predicate Counted(s: Store) {
    && s.inflight.Keys !! s.count.Keys
    && (forall u :: u in s.inflight ==> s.inflight[u] == Owed(s, u))
    && (forall u :: u in s.count ==> s.count[u] == Owed(s, u))
    && (s.phase.Up? ==> forall r :: r in s.disk.Held() ==> r.uid in s.count || r.uid in s.inflight)
    && (forall u :: u in s.decs ==> u in s.count || u in s.inflight)
    && (forall u :: u in s.doomed ==> Owed(s, u) == 0 && u !in s.inflight && u in s.hist.contents)
    && s.count.Keys + s.inflight.Keys <= s.hist.contents.Keys
    && (forall u :: u in s.leaked ==> u in s.hist.contents)
  }

  ghost predicate Staged(s: Store) {
    && (!s.phase.Up? ==> s.count == map[] && s.inflight == map[] && s.decs == multiset{} && s.doomed == {} && s.leaked == multiset{})
    && (s.phase.ResetSent? ==> forall r :: r in s.disk.sent ==> r.dest in s.phase.todo)
    && (s.phase.ResetFailed? || s.phase.Pruning? || s.phase.Counting? ==> s.disk.sent == {})
    && (s.phase.Counting? ==> forall u :: u in s.disk.messages ==> u in Uids(s.disk.Settled()))
  }

  /** The part that does not concern the counts. */
  ghost predicate Data(dec: string -> bool, s: Store) {
    Placed(s) && Contents(dec, s) && Judged(dec, s) && Stamped(s)
  }

  ghost predicate Inv(dec: string -> bool, s: Store) {
    Data(dec, s) && Counted(s) && Staged(s)
  }

  // ------------------------------------------------------------ small facts

  lemma AllDests(d: Dest)
    ensures d in DESTINATIONS
  {
    match d {
      case Kafka =>
      case UDP =>
      case TCP =>
      case RELP =>
      case File =>
      case Stderr =>
      case Graylog =>
      case HTTP =>
      case NATS =>
      case HTTPServer =>
      case WebsocketServer =>
      case Elasticsearch =>
      case Redis =>
    }
  }

  lemma DestsNone(refs: set<Ref>, r: Ref)
    requires |DestsOf(refs, r.uid)| == 0
    ensures r !in refs
  {
    assert r in refs ==> r.dest in DestsOf(refs, r.uid);
  }

  // ------------------------------------------------------------ step by step

  lemma FirstInv(dec: string -> bool)
    ensures Inv(dec, FIRST)
  {
    forall d: Dest ensures d in DESTINATIONS { AllDests(d); }
  }

  /** A uid never ingested has no entry and no pending decrement. */
  lemma FreshUnused(s: Store, u: Uid)
    requires Placed(s) && u !in s.hist.contents
    ensures Load(s.disk, u) == 0
  {
    assert forall r :: r in s.disk.Held() ==> r in s.hist.committed;
    assert DestsOf(s.disk.Held(), u) == {};
  }

  lemma ContentPlaced(dec: string -> bool, s: Store, batch: map<Uid, string>)
    requires Placed(s) && Judged(dec, s) && batch.Keys !! s.hist.contents.Keys
    ensures Placed(DoContent(s, batch)) && Judged(dec, DoContent(s, batch))
  {
    var t := DoContent(s, batch);
    assert t.disk.Held() == s.disk.Held();
    assert forall u :: u in s.hist.contents ==> t.hist.contents[u] == s.hist.contents[u];
  }

  lemma ContentContents(dec: string -> bool, s: Store, batch: map<Uid, string>)
    requires Contents(dec, s) && batch.Keys !! s.hist.contents.Keys
    ensures Contents(dec, DoContent(s, batch))
  {
  }

  lemma ContentCounted(s: Store, batch: map<Uid, string>)
    requires Placed(s) && Counted(s) && batch.Keys !! s.hist.contents.Keys
    ensures Counted(DoContent(s, batch))
  {
    var t := DoContent(s, batch);
    assert t.disk.Held() == s.disk.Held();
    forall u ensures Owed(t, u) == Owed(s, u) {
      assert t.decs == s.decs && t.leaked == s.leaked;
    }
    forall u | u in batch ensures Owed(s, u) == 0 && u !in s.count {
      FreshUnused(s, u);
    }
    forall u | u in t.inflight ensures t.inflight[u] == Owed(t, u) {
      assert u !in batch ==> u in s.inflight;
    }
  }

  lemma ContentInv(dec: string -> bool, s: Store, batch: map<Uid, string>)
    requires Inv(dec, s) && s.phase.Up? && batch.Keys !! s.hist.contents.Keys
    ensures Inv(dec, DoContent(s, batch))
  {
    ContentPlaced(dec, s, batch);
    ContentContents(dec, s, batch);
    ContentCounted(s, batch);
  }

  /** Committing a batch to one destination adds that destination to a uid's entries. */
  lemma LoadAfterReady(refs: set<Ref>, dest: Dest, uids: set<Uid>, u: Uid)
    requires RefsTo(dest, uids) !! refs
    ensures |DestsOf(refs + RefsTo(dest, uids), u)| == |DestsOf(refs, u)| + (if u in uids then 1 else 0)
  {
    var all := DestsOf(refs + RefsTo(dest, uids), u);
    if u in uids {
      assert Ref(dest, u) in RefsTo(dest, uids);
      assert all == DestsOf(refs, u) + {dest};
    } else {
      assert all == DestsOf(refs, u);
    }
  }

  lemma MakeReadyInv(dec: string -> bool, s: Store, dest: Dest, uids: set<Uid>)
    requires Inv(dec, s) && s.phase.Up? && uids <= s.inflight.Keys && RefsTo(dest, uids) !! s.hist.committed
    ensures Inv(dec, DoReady(s, dest, uids))
  {
    var t := DoReady(s, dest, uids);
    var added := RefsTo(dest, uids);
    assert t.disk.Held() == s.disk.Held() + added;
    MakeReadyPlaced(s, dest, uids);
    assert Contents(dec, t);
    MakeReadyCounted(s, dest, uids);
  }

  lemma MakeReadyPlaced(s: Store, dest: Dest, uids: set<Uid>)
    requires Placed(s) && uids <= s.hist.contents.Keys && RefsTo(dest, uids) !! s.hist.committed
    ensures Placed(DoReady(s, dest, uids))
  {
    var t := DoReady(s, dest, uids);
    assert forall r :: r in RefsTo(dest, uids) ==> r !in s.hist.committed;
    assert t.disk.Held() == s.disk.Held() + RefsTo(dest, uids);
  }

  lemma MakeReadyCounted(s: Store, dest: Dest, uids: set<Uid>)
    requires Counted(s) && s.phase.Up? && uids <= s.inflight.Keys && RefsTo(dest, uids) !! s.disk.Held()
    ensures Counted(DoReady(s, dest, uids))
  {
    var t := DoReady(s, dest, uids);
    assert t.disk.Held() == s.disk.Held() + RefsTo(dest, uids);
    forall u ensures Owed(t, u) == Owed(s, u) + (if u in uids then 1 else 0) {
      LoadAfterReady(s.disk.Held(), dest, uids, u);
    }
  }

  lemma CountNewCounted(s: Store, uid: Uid)
    requires Counted(s) && uid in s.inflight
    ensures Counted(DoCount(s, uid))
  {
    var t := DoCount(s, uid);
    assert forall u :: Owed(t, u) == Owed(s, u);
    forall r | r in t.disk.Held() && r.uid == uid && s.inflight[uid] == 0 ensures false {
      DestsNone(s.disk.Held(), r);
    }
  }

  lemma CountNewInv(dec: string -> bool, s: Store, uid: Uid)
    requires Inv(dec, s) && s.phase.Up? && uid in s.inflight
    ensures Inv(dec, DoCount(s, uid))
  {
    CountNewCounted(s, uid);
  }

  /** Retrieve holds back exactly the entries whose ingested content is not good. */
  lemma RetrieveSplits(dec: string -> bool, s: Store, dest: Dest, uids: set<Uid>)
    requires Placed(s) && Contents(dec, s) && RefsTo(dest, uids) <= s.disk.ready
    ensures forall u :: u in uids ==>
      u in s.hist.contents && (Good(dec, s.hist.contents[u]) <==> u !in Unusable(dec, s.disk, uids))
  {
    forall u | u in uids
      ensures u in s.hist.contents
      ensures Good(dec, s.hist.contents[u]) <==> u !in Unusable(dec, s.disk, uids)
    {
      assert Ref(dest, u) in RefsTo(dest, uids);
      assert Ref(dest, u) in s.disk.Held();
    }
  }

  lemma RefsSplit(dest: Dest, uids: set<Uid>, bad: set<Uid>)
    requires bad <= uids
    ensures RefsTo(dest, uids) == RefsTo(dest, uids - bad) + RefsTo(dest, bad)
    ensures RefsTo(dest, uids - bad) !! RefsTo(dest, bad)
  {
  }

  lemma RetrievePlaced(dec: string -> bool, s: Store, dest: Dest, uids: set<Uid>)
    requires Placed(s) && RefsTo(dest, uids) <= s.disk.ready
    ensures Placed(DoRetrieve(dec, s, dest, uids))
    ensures DoRetrieve(dec, s, dest, uids).disk.Held() == s.disk.Held() - RefsTo(dest, Unusable(dec, s.disk, uids))
  {
    var t := DoRetrieve(dec, s, dest, uids);
    RefsSplit(dest, uids, Unusable(dec, s.disk, uids));
    assert t.disk.Held() + t.hist.dropped == s.disk.Held() + s.hist.dropped;
  }

  lemma RetrieveContents(dec: string -> bool, s: Store, dest: Dest, uids: set<Uid>)
    requires Placed(s) && Contents(dec, s) && RefsTo(dest, uids) <= s.disk.ready
    ensures Contents(dec, DoRetrieve(dec, s, dest, uids))
  {
    RetrieveSplits(dec, s, dest, uids);
    RetrievePlaced(dec, s, dest, uids);
  }

  lemma LoadAfterDrop(refs: set<Ref>, dest: Dest, bad: set<Uid>, u: Uid)
    requires RefsTo(dest, bad) <= refs
    ensures |DestsOf(refs - RefsTo(dest, bad), u)| + multiset(bad)[u] == |DestsOf(refs, u)|
  {
    var rest := DestsOf(refs - RefsTo(dest, bad), u);
    if u in bad {
      assert Ref(dest, u) in RefsTo(dest, bad);
      assert dest in DestsOf(refs, u);
      assert rest == DestsOf(refs, u) - {dest};
    } else {
      assert rest == DestsOf(refs, u);
    }
  }

  lemma RetrieveCounted(dec: string -> bool, s: Store, dest: Dest, uids: set<Uid>)
    requires Placed(s) && Contents(dec, s) && Counted(s) && RefsTo(dest, uids) <= s.disk.ready
    ensures Counted(DoRetrieve(dec, s, dest, uids))
  {
    var t := DoRetrieve(dec, s, dest, uids);
    var bad := Unusable(dec, s.disk, uids);
    RetrievePlaced(dec, s, dest, uids);
    RetrieveSplits(dec, s, dest, uids);
    assert RefsTo(dest, bad) <= RefsTo(dest, uids);
    forall u ensures Owed(t, u) == Owed(s, u) {
      LoadAfterDrop(s.disk.Held(), dest, bad, u);
    }
  }

  lemma RetrieveInv(dec: string -> bool, s: Store, dest: Dest, uids: set<Uid>)
    requires Inv(dec, s) && s.phase.Up? && RefsTo(dest, uids) <= s.disk.ready
    ensures Inv(dec, DoRetrieve(dec, s, dest, uids))
  {
    RetrieveSplits(dec, s, dest, uids);
    RetrievePlaced(dec, s, dest, uids);
    RetrieveContents(dec, s, dest, uids);
    RetrieveCounted(dec, s, dest, uids);
  }

  /** The counts do not see what happens to contents. */
  lemma SameCounted(s: Store, t: Store)
    requires Counted(s) && t.disk.Held() == s.disk.Held()
    requires t.count == s.count && t.inflight == s.inflight && t.decs == s.decs && t.doomed == s.doomed
    requires t.leaked == s.leaked && t.phase.Up? == s.phase.Up? && t.hist.contents == s.hist.contents
    ensures Counted(t)
  {
    assert forall u :: Owed(s, u) == Owed(t, u);
  }

  lemma LoadAfterAck(refs: set<Ref>, r: Ref, u: Uid)
    requires r in refs
    ensures |DestsOf(refs - {r}, u)| + (if u == r.uid then 1 else 0) == |DestsOf(refs, u)|
  {
    if u == r.uid {
      assert r.dest in DestsOf(refs, u);
      assert DestsOf(refs - {r}, u) == DestsOf(refs, u) - {r.dest};
    } else {
      assert DestsOf(refs - {r}, u) == DestsOf(refs, u);
    }
  }

  lemma AckOneData(dec: string -> bool, s: Store, r: Ref)
    requires Data(dec, s) && r in s.disk.sent
    ensures Data(dec, AckOne(s, r))
    ensures AckOne(s, r).disk.Held() == s.disk.Held() - {r}
  {
    AckOnePlaced(s, r);
    var t := AckOne(s, r);
    assert t.disk.Held() == s.disk.Held() - {r};
  }

  lemma AckOnePlaced(s: Store, r: Ref)
    requires Placed(s) && r in s.disk.sent
    ensures Placed(AckOne(s, r)) && AckOne(s, r).disk.Held() == s.disk.Held() - {r}
  {
    var t := AckOne(s, r);
    assert t.disk.Held() == s.disk.Held() - {r};
    assert t.disk.Held() + t.hist.acked == s.disk.Held() + s.hist.acked;
  }

  lemma AckOneCounted(s: Store, r: Ref)
    requires Counted(s) && s.phase.Up? && r in s.disk.sent && r.uid in s.hist.contents
    requires AckOne(s, r).disk.Held() == s.disk.Held() - {r}
    ensures Counted(AckOne(s, r))
  {
    var t := AckOne(s, r);
    assert r in s.disk.Held();
    forall u ensures Owed(t, u) == Owed(s, u) {
      LoadAfterAck(s.disk.Held(), r, u);
    }
  }

  lemma AckOneInv(dec: string -> bool, s: Store, r: Ref)
    requires Inv(dec, s) && s.phase.Up? && r in s.disk.sent
    ensures Inv(dec, AckOne(s, r))
  {
    AckOneData(dec, s, r);
    AckOneCounted(s, r);
  }

  lemma {:induction false} AckAllInv(dec: string -> bool, s: Store, acks: seq<Ref>)
    requires Inv(dec, s) && Enabled(s, Ack(acks))
    ensures Inv(dec, AckAll(s, acks))
    ensures AckAll(s, acks).phase.Up?
    ensures forall r :: r in AckAll(s, acks).disk.sent <==> r in s.disk.sent && r !in acks
  {
    if acks == [] {
    } else {
      var k := |acks| - 1;
      AckAllInv(dec, s, acks[..k]);
      assert acks[k] !in acks[..k];
      AckOneInv(dec, AckAll(s, acks[..k]), acks[k]);
      assert forall r :: r in acks <==> r in acks[..k] || r == acks[k];
    }
  }

  lemma OwedAfterDec(s: Store, uid: Uid, u: Uid)
    requires uid in s.decs
    ensures
      Owed(DoDec(s, uid), u) == if u == uid && uid in s.count then Owed(s, u) - 1 else Owed(s, u)
  {
  }

  lemma DecPresent(s: Store, uid: Uid)
    requires Counted(s) && uid in s.decs && uid in s.count
    ensures Counted(DoDec(s, uid))
  {
    var t := DoDec(s, uid);
    assert t.count.Keys == s.count.Keys;
    assert uid !in s.doomed && uid !in s.inflight by { assert Owed(s, uid) > 0; }
    forall u ensures Owed(t, u) == if u == uid then Owed(s, u) - 1 else Owed(s, u) {
      OwedAfterDec(s, uid, u);
    }
    forall u | u in t.decs ensures u in s.decs {}
  }

  /** The decrement is lost and stays owed. */
  lemma DecAbsent(s: Store, uid: Uid)
    requires Counted(s) && uid in s.decs && uid !in s.count
    ensures Counted(DoDec(s, uid))
  {
    var t := DoDec(s, uid);
    assert t.count == s.count;
    forall u ensures Owed(t, u) == Owed(s, u) {
      OwedAfterDec(s, uid, u);
    }
    forall u | u in t.decs ensures u in s.decs {}
    forall u | u in t.leaked ensures u in t.hist.contents { assert u == uid || u in s.leaked; }
  }

  lemma CountDecCounted(s: Store, uid: Uid)
    requires Counted(s) && uid in s.decs
    ensures Counted(DoDec(s, uid))
  {
    if uid in s.count { DecPresent(s, uid); } else { DecAbsent(s, uid); }
  }

  lemma CountDecInv(dec: string -> bool, s: Store, uid: Uid)
    requires Inv(dec, s) && s.phase.Up? && uid in s.decs
    ensures Inv(dec, DoDec(s, uid))
  {
    CountDecCounted(s, uid);
  }

  /** A step that only moves entries between queues keeps the invariant. */
  lemma MoveInv(dec: string -> bool, s: Store, t: Store)
    requires Inv(dec, s)
    requires t == s.(disk := t.disk, phase := t.phase)
    requires Moves(s.disk, t.disk, s.hist) && Stamped(t) && Staged(t) && t.phase.Up? == s.phase.Up?
    ensures Inv(dec, t)
  {
    MoveData(dec, s, t);
    SameCounted(s, t);
  }

  lemma MoveData(dec: string -> bool, s: Store, t: Store)
    requires Data(dec, s)
    requires t == s.(disk := t.disk, phase := t.phase)
    requires Moves(s.disk, t.disk, s.hist) && Stamped(t)
    ensures Data(dec, t)
  {
  }

  ghost predicate Moves(d: Disk, e: Disk, h: History) {
    && Disjoint(e, h) && e.Held() == d.Held() && e.messages == d.messages
    && e.sent + e.failed.Keys + e.perm.Keys <= d.sent + d.failed.Keys + d.perm.Keys
  }

  lemma NackMoves(d: Disk, h: History, refs: set<Ref>, now: int)
    requires Disjoint(d, h) && refs <= d.sent
    ensures Moves(d, NackTx(d, refs, now), h)
    ensures NackTx(d, refs, now).failed.Keys == d.failed.Keys + refs
  {
    assert NackTx(d, refs, now).failed.Keys == d.failed.Keys + refs;
  }

  lemma NackStamped(s: Store, refs: set<Ref>, now: int)
    requires Stamped(s) && IsInt64(now)
    ensures Stamped(s.(disk := NackTx(s.disk, refs, now)))
  {
    Conv.TimeRoundTrip(now, []);
    assert Conv.TimeBytes(now) + [] == Conv.TimeBytes(now);
  }

  lemma PermMoves(d: Disk, h: History, refs: set<Ref>, now: int)
    requires Disjoint(d, h) && refs <= d.sent
    ensures Moves(d, PermTx(d, refs, now), h)
  {
    assert PermTx(d, refs, now).perm.Keys == d.perm.Keys + refs;
  }

  lemma NackInv(dec: string -> bool, s: Store, refs: set<Ref>, now: int)
    requires Inv(dec, s) && s.phase.Up? && refs <= s.disk.sent && IsInt64(now)
    ensures Inv(dec, s.(disk := NackTx(s.disk, refs, now)))
  {
    NackMoves(s.disk, s.hist, refs, now);
    NackStamped(s, refs, now);
    MoveInv(dec, s, s.(disk := NackTx(s.disk, refs, now)));
  }

  lemma PermErrorInv(dec: string -> bool, s: Store, refs: set<Ref>, now: int)
    requires Inv(dec, s) && s.phase.Up? && refs <= s.disk.sent
    ensures Inv(dec, s.(disk := PermTx(s.disk, refs, now)))
  {
    PermMoves(s.disk, s.hist, refs, now);
    MoveInv(dec, s, s.(disk := PermTx(s.disk, refs, now)));
  }

  lemma RetryMoves(d: Disk, h: History, dest: Dest, now: int)
    requires Disjoint(d, h) && Invalid(d, dest) == {}
    ensures Moves(d, RetryTx(d, dest, now), h)
    ensures RetryTx(d, dest, now).failed == d.failed - Expired(d, dest, now)
  {
    var e, expired := RetryTx(d, dest, now), Expired(d, dest, now);
    assert expired + Invalid(d, dest) == expired;
    assert expired <= d.failed.Keys;
    assert e.failed.Keys == d.failed.Keys - expired;
  }

  /** A retry of one destination's failures: nothing is discarded, because every timestamp decodes. */
  lemma RetryKeeps(s: Store, dest: Dest, now: int)
    requires Stamped(s) && Disjoint(s.disk, s.hist)
    ensures Invalid(s.disk, dest) == {}
    ensures Moves(s.disk, RetryTx(s.disk, dest, now), s.hist)
    ensures Stamped(s.(disk := RetryTx(s.disk, dest, now)))
    ensures DoRetry(s, dest, now) == s.(disk := RetryTx(s.disk, dest, now))
  {
    NoneInvalid(s, dest);
    RetryMoves(s.disk, s.hist, dest, now);
    RetryStamped(s, dest, now);
    assert Uids({}) == {};
  }

  lemma NoneInvalid(s: Store, dest: Dest)
    requires Stamped(s)
    ensures Invalid(s.disk, dest) == {}
  {
  }

  lemma RetryStamped(s: Store, dest: Dest, now: int)
    requires Stamped(s)
    ensures Stamped(s.(disk := RetryTx(s.disk, dest, now)))
  {
    var e := RetryTx(s.disk, dest, now);
    assert e.failed.Keys <= s.disk.failed.Keys;
  }

  lemma RetryFailedInv(dec: string -> bool, s: Store, dest: Dest, now: int)
    requires Inv(dec, s) && s.phase.Up?
    ensures Inv(dec, DoRetry(s, dest, now))
  {
    RetryKeeps(s, dest, now);
    MoveInv(dec, s, s.(disk := RetryTx(s.disk, dest, now)));
  }

  lemma PurgeSelectInv(dec: string -> bool, s: Store, uid: Uid)
    requires Inv(dec, s) && s.phase.Up? && uid in Garbage(s.count)
    ensures Inv(dec, s.(doomed := s.doomed + {uid}))
  {
    var t := s.(doomed := s.doomed + {uid});
    assert forall u :: Owed(s, u) == Owed(t, u);
  }

  lemma DoomedUnheld(s: Store, r: Ref)
    requires Counted(s) && r in s.disk.Held()
    ensures r.uid !in s.doomed
  {
    if r.uid in s.doomed { DestsNone(s.disk.Held(), r); }
  }

  lemma PurgeDeleteInv(dec: string -> bool, s: Store)
    requires Inv(dec, s) && s.phase.Up?
    ensures Inv(dec, DoPurge(s, true))
  {
    var t := DoPurge(s, true);
    assert t.disk.Held() == s.disk.Held();
    forall r | r in s.disk.Held() ensures r.uid !in s.doomed { DoomedUnheld(s, r); }
    assert Contents(dec, t);
    SameCounted(s, t);
  }

  lemma PurgeForgetInv(dec: string -> bool, s: Store, uid: Uid)
    requires Inv(dec, s) && s.phase.Up? && uid in s.doomed
    ensures Inv(dec, DoForget(s, uid))
  {
    ForgetCounted(s, uid);
  }

  lemma ForgetCounted(s: Store, uid: Uid)
    requires Counted(s) && uid in s.doomed
    ensures Counted(DoForget(s, uid))
  {
    var t := DoForget(s, uid);
    assert forall u :: Owed(s, u) == Owed(t, u);
    forall r | r in s.disk.Held() ensures r.uid !in s.doomed { DoomedUnheld(s, r); }
  }

  lemma CrashInv(dec: string -> bool, s: Store)
    requires Inv(dec, s)
    ensures Inv(dec, Boot(s.disk, s.hist))
  {
    forall d: Dest ensures d in DESTINATIONS { AllDests(d); }
  }

  lemma SentMoves(d: Disk, h: History, dest: Dest)
    requires Disjoint(d, h)
    ensures Moves(d, SentTx(d, dest), h)
    ensures forall r :: r in SentTx(d, dest).sent <==> r in d.sent && r.dest != dest
  {
    assert SentTx(d, dest).Held() == d.Held();
  }

  lemma RecoverSentInv(dec: string -> bool, s: Store, dest: Dest)
    requires Inv(dec, s) && s.phase.ResetSent? && dest in s.phase.todo
    ensures Inv(dec, s.(disk := SentTx(s.disk, dest), phase := AfterSent(s.phase.todo - {dest})))
  {
    SentMoves(s.disk, s.hist, dest);
    var t := s.(disk := SentTx(s.disk, dest), phase := AfterSent(s.phase.todo - {dest}));
    assert Staged(t) by {
      if s.phase.todo - {dest} == {} {
        forall r | r in s.disk.sent ensures r !in t.disk.sent {
          assert r.dest !in s.phase.todo - {dest};
        }
      }
    }
    MoveInv(dec, s, t);
  }

  lemma RecoverFailedInv(dec: string -> bool, s: Store, dest: Dest, now: int)
    requires Inv(dec, s) && s.phase.ResetFailed? && dest in s.phase.todo
    ensures Inv(dec, DoRetry(s, dest, now).(phase := AfterFailed(s.phase.todo - {dest})))
  {
    RetryKeeps(s, dest, now);
    MoveInv(dec, s, s.(disk := RetryTx(s.disk, dest, now), phase := AfterFailed(s.phase.todo - {dest})));
  }

  /** With Sent empty, prune keeps the content of everything that is held. */
  lemma PruneData(dec: string -> bool, s: Store)
    requires Data(dec, s) && s.disk.sent == {} && s.inflight == map[]
    ensures Data(dec, s.(disk := PruneTx(s.disk), phase := Counting))
  {
    var t := s.(disk := PruneTx(s.disk), phase := Counting);
    assert t.disk.Held() == s.disk.Held() == s.disk.Settled();
    assert Placed(t) && Judged(dec, t) && Stamped(t);
    forall r | r in t.disk.Held() && Good(dec, s.hist.contents[r.uid]) ensures r.uid in t.disk.messages {
      assert r.uid in Uids(s.disk.Settled());
    }
  }

  lemma PruneInv(dec: string -> bool, s: Store)
    requires Inv(dec, s) && s.phase.Pruning?
    ensures Inv(dec, s.(disk := PruneTx(s.disk), phase := Counting))
  {
    PruneData(dec, s);
    SameCounted(s, s.(disk := PruneTx(s.disk), phase := Counting));
  }

  lemma DestsUnion(a: set<Ref>, b: set<Ref>, u: Uid)
    requires a !! b
    ensures |DestsOf(a + b, u)| == |DestsOf(a, u)| + |DestsOf(b, u)|
  {
    var x, y := DestsOf(a, u), DestsOf(b, u);
    forall d | d in x ensures d !in y {
      assert Ref(d, u) in a && Ref(d, u) !in b;
    }
    assert DestsOf(a + b, u) == x + y;
  }

  /** Disjoint queues: counting them one by one counts the uid's entries. */
  lemma InitialCountIsLoad(d: Disk, u: Uid)
    requires d.ready !! d.failed.Keys && d.ready + d.failed.Keys !! d.perm.Keys
    ensures u in InitialCount(d) <==> DestsOf(d.Settled(), u) != {}
    ensures u in InitialCount(d) ==> InitialCount(d)[u] == |DestsOf(d.Settled(), u)|
  {
    DestsUnion(d.ready, d.failed.Keys, u);
    DestsUnion(d.ready + d.failed.Keys, d.perm.Keys, u);
    forall r | r in d.Settled() && r.uid == u ensures r.dest in DestsOf(d.Settled(), u) { }
  }

  lemma CountsLoad(d: Disk, u: Uid)
    requires d.sent == {} && d.ready !! d.failed.Keys && d.ready + d.failed.Keys !! d.perm.Keys
    ensures u in InitialCount(d) <==> |DestsOf(d.Held(), u)| > 0
    ensures u in InitialCount(d) ==> InitialCount(d)[u] == |DestsOf(d.Held(), u)|
  {
    assert d.Held() == d.Settled();
    InitialCountIsLoad(d, u);
  }

  lemma InitCountCounted(s: Store)
    requires Placed(s) && Staged(s) && s.phase.Counting?
    ensures Counted(s.(count := InitialCount(s.disk), phase := Up))
  {
    var t := s.(count := InitialCount(s.disk), phase := Up);
    forall u
      ensures u in t.count <==> Owed(t, u) > 0
      ensures u in t.count ==> t.count[u] == Owed(t, u)
    {
      CountsLoad(t.disk, u);
    }
    forall r | r in t.disk.Held() ensures r.uid in t.count {
      if r.uid !in t.count { DestsNone(t.disk.Held(), r); }
    }
    forall u | u in t.count ensures u in t.hist.contents {
      if u !in t.hist.contents { FreshUnused(t, u); }
    }
  }

  lemma InitCountInv(dec: string -> bool, s: Store)
    requires Inv(dec, s) && s.phase.Counting?
    ensures Inv(dec, s.(count := InitialCount(s.disk), phase := Up))
  {
    InitCountCounted(s);
  }

  lemma StepInv(dec: string -> bool, s: Store, step: Step)
    requires Inv(dec, s) && Enabled(s, step)
    ensures Inv(dec, Apply(dec, s, step))
  {
    match step {
      case Content(batch) => ContentInv(dec, s, batch);
      case MakeReady(dest, uids) => MakeReadyInv(dec, s, dest, uids);
      case CountNew(uid) => CountNewInv(dec, s, uid);
      case Retrieve(dest, uids) => RetrieveInv(dec, s, dest, uids);
      case Ack(acks) => AckAllInv(dec, s, acks);
      case CountDec(uid) => CountDecInv(dec, s, uid);
      case Nack(refs, now) => NackInv(dec, s, refs, now);
      case PermError(refs, now) => PermErrorInv(dec, s, refs, now);
      case RetryFailed(dest, now) => RetryFailedInv(dec, s, dest, now);
      case PurgeSelect(uid) => PurgeSelectInv(dec, s, uid);
      case PurgeDelete(committed) => if committed { PurgeDeleteInv(dec, s); }
      case PurgeForget(uid) => PurgeForgetInv(dec, s, uid);
      case Crash => CrashInv(dec, s);
      case RecoverSent(dest) => RecoverSentInv(dec, s, dest);
      case RecoverFailed(dest, now) => RecoverFailedInv(dec, s, dest, now);
      case Prune => PruneInv(dec, s);
      case InitCount => InitCountInv(dec, s);
    }
  }

  /** The invariant holds after every legal run, crashes and restarts included. */
  lemma {:induction false} RunInv(dec: string -> bool, s: Store, steps: seq<Step>)
    requires Inv(dec, s) && Legal(dec, s, steps)
    ensures Inv(dec, Exec(dec, s, steps))
  {
    if steps == [] {
    } else {
      var k := |steps| - 1;
      RunInv(dec, s, steps[..k]);
      StepInv(dec, Exec(dec, s, steps[..k]), steps[k]);
    }
  }
}
