/** The store object and its transactions (store/store.go), each proved to be a step of the state machine. */
module MessageStore {
  import opened Bytes
  import opened StoreState
  import RC = RefCount
  import Conv
  import R = Retrieve
  import StoreCounts
  import opened StoreRecovery
  import Inv = StoreInvariant
  import opened StoreTrace

  class MessageStore {
    var messages: map<Uid, string>
    var ready: set<Ref>
    var sent: set<Ref>
    var failed: map<Ref, Data>
    var perm: map<Ref, Data>
    const count: RC.RefCount
    /** What the object held after each transaction, and after each count that is updated or selected while it is up. */
    ghost var log: seq<Snapshot>

    constructor ()
      ensures fresh(count)
      ensures View() == Disk(map[], {}, {}, map[], map[]) && count.trie == map[] && log == []
    {
      messages, ready, sent, failed, perm := map[], {}, {}, map[], map[];
      log := [];
      count := new RC.RefCount();
    }

    function View(): Disk
      reads this
    {
      Disk(messages, ready, sent, failed, perm)
    }

    ghost function Now(): Snapshot
      reads this, count
    {
      Snapshot(View(), count.trie)
    }

    /** The log since some point is the past of a trace. */
    ghost predicate Logged(start: nat, t: Trace)
      reads this
    {
      start <= |log| && t.past == log[start..]
    }

    // ---------------------------------------------------------- ingest

    /** One transaction on one Ready queue. */
    method IngestReadyByDest(uids: set<Uid>, dest: Dest)
      modifies this
      ensures View() == old(View()).(ready := old(ready) + RefsTo(dest, uids)) && log == old(log) + [Now()]
    {
      var todo := uids;
      while todo != {}
        invariant todo <= uids && log == old(log)
        invariant View() == old(View()).(ready := old(ready) + RefsTo(dest, uids - todo))
      {
        var u :| u in todo;
        ready := ready + {Ref(dest, u)};
        assert RefsTo(dest, uids - (todo - {u})) == RefsTo(dest, uids - todo) + {Ref(dest, u)};
        todo := todo - {u};
      }
      assert uids - {} == uids;
      log := log + [Now()];
    }

    /** The loop over the destinations; it stops at the first transaction that fails. */
    method IngestReady(uids: set<Uid>, dests: seq<Dest>, succeed: nat,
                       ghost dec: string -> bool, ghost s: Store, ghost t: Trace, ghost start: nat)
      returns (done: nat, ghost u: Trace)
      requires Logged(start, t)
      modifies this
      ensures Logged(start, u) && old(log) <= log
      ensures done == if succeed < |dests| then succeed else |dests|
      ensures View() == old(View()).(ready := old(ready) + AllRefs(dests[..done], uids))
      ensures u.steps == t.steps + Readies(dests[..done], uids)
      ensures Distinct(dests) && old(Ready(dec, s, t, dests, 0, uids)) ==> Ready(dec, s, u, dests, done, uids)
    {
      done, u := 0, t;
      ghost var fit := Distinct(dests) && Ready(dec, s, t, dests, 0, uids);
      while done < |dests| && done < succeed
        invariant done <= |dests| && done <= succeed && Logged(start, u) && old(log) <= log
        invariant View() == old(View()).(ready := old(ready) + AllRefs(dests[..done], uids))
        invariant u.steps == t.steps + Readies(dests[..done], uids)
        invariant fit ==> Ready(dec, s, u, dests, done, uids)
      {
        AllRefsSnoc(dests, uids, done);
        ReadiesSnoc(dests, uids, done);
        if fit { ReadyStep(dec, s, u, View(), count.trie, dests, done, uids); }
        IngestReadyByDest(uids, dests[done]);
        u := Log(u, MakeReady(dests[done], uids), View(), count.trie);
        done := done + 1;
      }
    }

    /** An Ingest call stands between its transactions. */
    ghost predicate Ready(dec: string -> bool, s: Store, t: Trace, dests: seq<Dest>, done: nat, uids: set<Uid>)
      reads this, count
    {
      Reached(dec, s, t, View(), count.trie) && Ingesting(Exec(dec, s, t.steps), dests, done, uids)
    }

    method CountOne(uid: Uid, init: nat)
      modifies this`log, count
      ensures count.trie == StoreState.New(old(count.trie), uid, init) && log == old(log) + [Now()]
    {
      count.New(uid, init);
      log := log + [Now()];
    }

    method CountNew(uids: set<Uid>, init: nat, ghost dests: seq<Dest>,
                    ghost dec: string -> bool, ghost s: Store, ghost t: Trace, ghost start: nat)
      returns (ghost order: seq<Uid>, ghost u: Trace)
      requires Logged(start, t)
      modifies this`log, count
      ensures Logged(start, u) && old(log) <= log
      ensures count.trie == NewAll(old(count.trie), uids, init)
      ensures Distinct(order) && Elems(order) == uids && u.steps == t.steps + News(order)
      ensures old(Ready(dec, s, t, dests, init, uids)) ==> Reached(dec, s, u, View(), count.trie)
    {
      var todo := uids;
      order, u := [], t;
      ghost var fit := Ready(dec, s, t, dests, init, uids);
      while todo != {}
        invariant todo <= uids
        invariant count.trie == NewAll(old(count.trie), uids - todo, init)
        invariant Logged(start, u) && old(log) <= log
        invariant Distinct(order) && Elems(order) == uids - todo && u.steps == t.steps + News(order)
        invariant fit ==> Ready(dec, s, u, dests, init, todo)
      {
        var uid :| uid in todo;
        if fit { NewStep(dec, s, u, View(), count.trie, dests, init, todo, uid); }
        CountOne(uid, init);
        u := Log(u, Step.CountNew(uid), View(), count.trie);
        assert uids - (todo - {uid}) == (uids - todo) + {uid};
        NewAllSnoc(old(count.trie), uids - todo, init, uid);
        NewsSnoc(order, uids - todo, uid);
        order := order + [uid];
        todo := todo - {uid};
      }
      assert uids - {} == uids;
    }

    /** The transaction that stores the contents. */
    method IngestMessages(m: map<Uid, string>, ghost dests: seq<Dest>, ghost dec: string -> bool, ghost s: Store)
      returns (ghost t: Trace)
      modifies this
      ensures View() == old(View()).(messages := old(messages) + m) && t.steps == [Content(m)]
      ensures log == old(log) + [Now()] && t.past == [Now()]
      ensures old(Stands(s, View(), count.trie)) && Unused(s, m, dests) ==> Ready(dec, s, t, dests, 0, m.Keys)
    {
      if Stands(s, View(), count.trie) && Unused(s, m, dests) { ContentStep(dec, s, View(), count.trie, m, dests); }
      messages := messages + m;
      log := log + [Now()];
      t := Log(NOTHING, Content(m), View(), count.trie);
    }

    /**
     Ingest: contents first, then one transaction per destination, then the
     counts, which are set to the number of destinations done. Whether the
     contents can be stored, and how many of the other transactions succeed, are
     inputs. What the object held after each of them, as logged, are the states
     of a legal run of the machine, when the uids are new.
     */
    method Ingest(m: map<Uid, string>, dests: seq<Dest>, stored: bool, succeed: nat, ghost dec: string -> bool, ghost s: Store)
      returns (length: nat, ok: bool, ghost order: seq<Uid>, ghost t: Trace)
      modifies this, count
      ensures old(log) <= log && t.past == log[|old(log)|..]
      ensures length == (if m == map[] || stored then |m| else 0) && (ok <==> m == map[] || (stored && succeed >= |dests|))
      ensures
        var done := if succeed < |dests| then succeed else |dests|;
        if m == map[] || !stored then
          View() == old(View()) && count.trie == old(count.trie) && t == NOTHING
        else
          && View() == old(View()).(messages := old(messages) + m, ready := old(ready) + AllRefs(dests[..done], m.Keys))
          && count.trie == NewAll(old(count.trie), m.Keys, done)
          && Distinct(order) && Elems(order) == m.Keys && t.steps == IngestSteps(m, dests[..done], order)
      ensures old(Stands(s, View(), count.trie)) && Unused(s, m, dests) ==> Reached(dec, s, t, View(), count.trie)
    {
      length, order, t := |m|, [], NOTHING;
      if length == 0 {
        assert m == map[];
        return length, true, order, t;
      }
      if !stored {
        return 0, false, order, t;
      }
      ghost var start := |log|;
      t := IngestMessages(m, dests, dec, s);
      var done;
      done, t := IngestReady(m.Keys, dests, succeed, dec, s, t, start);
      ok := done == |dests|;
      order, t := CountNew(m.Keys, done, dests, dec, s, t, start);
    }

    // ---------------------------------------------------------- retrieve

    /**
     One transaction that takes a batch off a Ready queue; `keys` is the queue
     in iterator order. Every key examined leaves Ready: to Sent when its
     content can be handed out, to nowhere otherwise.
     */
    method TryRetrieve<M>(decode: string -> Option<M>, dest: Dest, keys: seq<Uid>, batchSize: nat)
      returns (uids: seq<Uid>, msgs: seq<M>)
      requires Lists(keys, dest, ready)
      modifies this
      ensures
        var n := R.Min(batchSize, |keys|);
        && View() == RetrieveTx(R.Decodes(decode), old(View()), dest, Elems(keys[..n]))
        && uids == R.Keep(decode, old(messages), keys[..n])
        && R.Handed(decode, old(messages), uids, msgs)
        && Lists(keys[n..], dest, ready)
      ensures log == old(log) + [Now()]
    {
      var buf := new Uid[batchSize];
      var fetched := R.FetchKeys(keys, batchSize, buf);
      ghost var batch := keys[..fetched];
      var nb, invalid;
      nb, msgs, invalid := R.Filter(decode, messages, buf, fetched, buf);
      uids := buf[..nb];
      R.Aligned(decode, messages, batch);
      RetrieveParts(decode, View(), dest, batch);
      ready := ready - RefsTo(dest, Elems(invalid));
      messages := messages - Elems(invalid);
      sent := sent + RefsTo(dest, Elems(uids));
      ready := ready - RefsTo(dest, Elems(uids));
      RestReady(old(ready), dest, keys, R.Min(batchSize, |keys|));
      log := log + [Now()];
    }

    /** One more retrieve, after those that took the first keys off what was the disk. */
    method RetrieveNext<M>(decode: string -> Option<M>, dest: Dest, keys: seq<Uid>, taken: nat, batchSize: nat, ghost was: Disk)
      returns (uids: seq<Uid>, msgs: seq<M>)
      requires Distinct(keys) && taken <= |keys| && Lists(keys[taken..], dest, ready)
      requires View() == RetrieveTx(R.Decodes(decode), was, dest, Elems(keys[..taken]))
      modifies this
      ensures
        var j := R.Upto(keys, taken, batchSize);
        && View() == RetrieveTx(R.Decodes(decode), was, dest, Elems(keys[..j]))
        && Lists(keys[j..], dest, ready)
        && uids == R.Keep(decode, was.messages, keys[taken..j])
      ensures R.Handed(decode, was.messages, uids, msgs)
    {
      ghost var j := R.Upto(keys, taken, batchSize);
      uids, msgs := TryRetrieve(decode, dest, keys[taken..], batchSize);
      assert keys[taken..][..j - taken] == keys[taken..j] && keys[taken..][j - taken..] == keys[j..];
      NextBatch(decode, was, dest, keys, taken, j);
      NextHanded(decode, was, dest, keys, taken, j, uids, msgs);
    }

    /**
     The loop that retrieves for one destination while nothing else touches its
     queue: batch after batch, until one yields no message. Together the batches
     are one retrieve of all that was taken, in queue order; the queue is empty
     afterwards exactly when the loop did not stall.
     */
    method RetrieveUntilIdle<M>(decode: string -> Option<M>, dest: Dest, keys: seq<Uid>, batchSize: nat)
      returns (uids: seq<Uid>, msgs: seq<M>, taken: nat)
      requires Lists(keys, dest, ready)
      modifies this
      ensures taken <= |keys|
      ensures taken == |keys| <==> forall k: nat :: !R.Idle(decode, old(messages), keys, batchSize, k)
      ensures View() == RetrieveTx(R.Decodes(decode), old(View()), dest, Elems(keys[..taken]))
      ensures Lists(keys[taken..], dest, ready)
      ensures uids == R.Keep(decode, old(messages), keys[..taken]) && R.Handed(decode, old(messages), uids, msgs)
    {
      uids, msgs, taken := [], [], 0;
      var idle := false;
      RetrieveNone(R.Decodes(decode), View(), dest);
      assert keys[0..] == keys;
      while !idle
        invariant taken <= |keys| && Lists(keys[taken..], dest, ready)
        invariant View() == RetrieveTx(R.Decodes(decode), old(View()), dest, Elems(keys[..taken]))
        invariant uids == R.Keep(decode, old(messages), keys[..taken]) && R.Handed(decode, old(messages), uids, msgs)
        invariant R.Stalls(decode, old(messages), keys, batchSize)
                  <==> if idle then taken < |keys| else R.Stalls(decode, old(messages), keys[taken..], batchSize)
        decreases |keys| - taken, !idle
      {
        R.StallsNext(decode, old(messages), keys, taken, batchSize);
        var more, batch := RetrieveNext(decode, dest, keys, taken, batchSize, old(View()));
        ghost var j := R.Upto(keys, taken, batchSize);
        R.KeepNext(decode, old(messages), keys, taken, j);
        R.HandedConcat(decode, old(messages), uids, msgs, more, batch);
        taken := R.Upto(keys, taken, batchSize);
        uids, msgs := uids + more, msgs + batch;
        idle := |batch| == 0;
      }
      R.StallsWhen(decode, old(messages), keys, batchSize);
    }

    // ---------------------------------------------------------- verdicts

    /** The transaction of doACK. */
    method DoACKHelper(acks: seq<Ref>)
      modifies this
      ensures View() == StoreCounts.AckTx(old(View()), acks) && log == old(log) + [Now()]
    {
      var i := 0;
      while i < |acks|
        invariant 0 <= i <= |acks| && log == old(log)
        invariant View() == StoreCounts.AckTx(old(View()), acks[..i])
      {
        assert acks[..i + 1] == acks[..i] + [acks[i]];
        sent := sent - {acks[i]};
        i := i + 1;
      }
      assert acks[..i] == acks;
      log := log + [Now()];
    }

    method CountDecOne(uid: Uid)
      modifies this`log, count
      ensures count.trie == StoreState.Dec(old(count.trie), uid) && log == old(log) + [Now()]
    {
      var _ := count.Dec(uid);
      log := log + [Now()];
    }

    /** The decrements that follow. */
    method CountDecs(acks: seq<Ref>, ghost dec: string -> bool, ghost s: Store, ghost t: Trace, ghost start: nat)
      returns (ghost u: Trace)
      requires Logged(start, t)
      modifies this`log, count
      ensures Logged(start, u) && old(log) <= log
      ensures count.trie == StoreCounts.DecAll(old(count.trie), acks)
      ensures u.steps == t.steps + Decs(acks)
      ensures old(Acked(dec, s, t, acks, 0)) ==> Reached(dec, s, u, View(), count.trie)
    {
      var i := 0;
      u := t;
      ghost var fit := Acked(dec, s, t, acks, 0);
      while i < |acks|
        invariant 0 <= i <= |acks| && u.steps == t.steps + Decs(acks[..i])
        invariant count.trie == StoreCounts.DecAll(old(count.trie), acks[..i])
        invariant Logged(start, u) && old(log) <= log
        invariant fit ==> Acked(dec, s, u, acks, i)
      {
        assert acks[..i + 1][..i] == acks[..i];
        assert Decs(acks[..i + 1]) == Decs(acks[..i]) + [CountDec(acks[i].uid)];
        if fit { DecStep(dec, s, u, View(), count.trie, acks, i); }
        CountDecOne(acks[i].uid);
        u := Log(u, CountDec(acks[i].uid), View(), count.trie);
        i := i + 1;
      }
      assert acks[..i] == acks;
    }

    /** A doACK call stands between its decrements. */
    ghost predicate Acked(dec: string -> bool, s: Store, t: Trace, acks: seq<Ref>, i: nat)
      requires i <= |acks|
      reads this, count
    {
      Reached(dec, s, t, View(), count.trie) && Owing(Exec(dec, s, t.steps), acks, i)
    }

    /**
     doACK: one transaction on Sent, then the counts; nothing at all when the
     transaction fails. With ACKs that are due, what the object held after each
     of them, as logged, are the states of a legal run of the machine.
     */
    method DoACK(acks: seq<Ref>, committed: bool, ghost dec: string -> bool, ghost s: Store) returns (ok: bool, ghost t: Trace)
      modifies this, count
      ensures ok <==> acks == [] || committed
      ensures old(log) <= log && t.past == log[|old(log)|..]
      ensures
        if acks == [] || !committed then
          View() == old(View()) && count.trie == old(count.trie) && t == NOTHING
        else
          && View() == StoreCounts.AckTx(old(View()), acks) && count.trie == StoreCounts.DecAll(old(count.trie), acks)
          && t.steps == [Ack(acks)] + Decs(acks)
      ensures old(Stands(s, View(), count.trie) && Due(acks, View())) ==> Reached(dec, s, t, View(), count.trie)
    {
      t := NOTHING;
      ghost var start := |log|;
      if acks == [] || !committed {
        return acks == [], t;
      }
      if Stands(s, View(), count.trie) && Due(acks, View()) { AckStep(dec, s, View(), count.trie, acks); }
      DoACKHelper(acks);
      t := Log(t, Ack(acks), View(), count.trie);
      t := CountDecs(acks, dec, s, t, start);
      ok := true;
    }

    /** doNACK: the entries move from Sent to Failed, stamped with the time. */
    method DoNACK(nacks: seq<Ref>, now: int)
      requires IsInt64(now)
      modifies this
      ensures View() == NackTx(old(View()), Elems(nacks), now) && log == old(log) + [Now()]
    {
      var tmp := new Byte[0];
      var buf := Conv.Time2Bytes(now, tmp);
      var i := 0;
      NackNone(View(), now);
      while i < |nacks|
        invariant 0 <= i <= |nacks| && log == old(log)
        invariant View() == NackTx(old(View()), Elems(nacks[..i]), now)
      {
        NackSnoc(old(View()), nacks, i, now);
        sent := sent - {nacks[i]};
        failed := failed[nacks[i] := buf];
        i := i + 1;
      }
      assert nacks[..i] == nacks;
      log := log + [Now()];
    }

    /** doPermanentError: the entries move from Sent to PermErrors. */
    method DoPermanentError(pes: seq<Ref>, now: int)
      requires IsInt64(now)
      modifies this
      ensures View() == PermTx(old(View()), Elems(pes), now) && log == old(log) + [Now()]
    {
      var tmp := new Byte[10];
      var buf := Conv.Time2Bytes(now, tmp);
      var i := 0;
      NackNone(View(), now);
      while i < |pes|
        invariant 0 <= i <= |pes| && log == old(log)
        invariant View() == PermTx(old(View()), Elems(pes[..i]), now)
      {
        PermSnoc(old(View()), pes, i, now);
        sent := sent - {pes[i]};
        perm := perm[pes[i] := buf];
        i := i + 1;
      }
      assert pes[..i] == pes;
      log := log + [Now()];
    }

    // ---------------------------------------------------------- retries and startup

    /** One transaction that puts a destination's Sent entries back into Ready. */
    method ResetStuckInSentByDest(dest: Dest) returns (nb: nat)
      modifies this
      ensures View() == SentTx(old(View()), dest) && log == old(log) + [Now()]
      ensures nb == |old(sent) - sent|
    {
      var stuck := set r | r in sent && r.dest == dest;
      sent := sent - stuck;
      var todo := stuck;
      while todo != {}
        invariant todo <= stuck && log == old(log)
        invariant View() == old(View()).(sent := old(sent) - stuck, ready := old(ready) + (stuck - todo))
      {
        var r :| r in todo;
        ready := ready + {r};
        todo := todo - {r};
      }
      assert stuck - {} == stuck;
      assert old(sent) - (old(sent) - stuck) == stuck;
      nb := |stuck|;
      log := log + [Now()];
    }

    /** The scan of a Failed queue: entries due again, and entries without a readable timestamp. */
    method ScanFailed(dest: Dest, now: int) returns (expired: set<Ref>, invalid: set<Ref>)
      ensures expired == Expired(View(), dest, now) && invalid == Invalid(View(), dest)
    {
      expired, invalid := {}, {};
      var all := set r | r in failed && r.dest == dest;
      var todo := all;
      while todo != {}
        invariant todo <= all
        invariant expired == Expired(View(), dest, now) - todo && invalid == Invalid(View(), dest) - todo
      {
        var r :| r in todo;
        ScanOne(Expired(View(), dest, now), todo, r);
        ScanOne(Invalid(View(), dest), todo, r);
        var t, n := Conv.Bytes2Time(failed[r]);
        if n <= 0 {
          invalid := invalid + {r};
        } else if now - t >= MINUTE {
          expired := expired + {r};
        }
        todo := todo - {r};
      }
    }

    method ResetFailuresByDest(dest: Dest, now: int) returns (nbExpired: nat, nbInvalid: nat)
      modifies this
      ensures View() == RetryTx(old(View()), dest, now)
      ensures nbExpired == |Expired(old(View()), dest, now)| && nbInvalid == |Invalid(old(View()), dest)|
      ensures log == if nbExpired == 0 && nbInvalid == 0 then old(log) else old(log) + [Now()]
    {
      var expired, invalid := ScanFailed(dest, now);
      nbExpired, nbInvalid := |expired|, |invalid|;
      RetryParts(View(), dest, now);
      if invalid == {} && expired == {} {
        return;
      }
      failed := failed - invalid;
      ready := ready + expired;
      failed := failed - expired;
      log := log + [Now()];
    }

    /** Whether some queue that prune looks at has this uid. */
    method Referenced(uid: Uid) returns (have: bool)
      ensures have <==> uid in Uids(View().Settled())
    {
      var todo := DESTINATIONS;
      while todo != {}
        invariant todo <= DESTINATIONS
        invariant forall d :: d in DESTINATIONS && d !in todo ==> Ref(d, uid) !in View().Settled()
      {
        var dest :| dest in todo;
        if Ref(dest, uid) in ready || Ref(dest, uid) in failed || Ref(dest, uid) in perm {
          assert Ref(dest, uid) in View().Settled();
          return true;
        }
        todo := todo - {dest};
      }
      forall r | r in View().Settled() ensures r.uid != uid {
        Inv.AllDests(r.dest);
        assert r == Ref(r.dest, r.uid);
      }
      return false;
    }

    method FindOrphans() returns (orphaned: set<Uid>)
      ensures orphaned == messages.Keys - Uids(View().Settled())
    {
      orphaned := {};
      var todo := messages.Keys;
      while todo != {}
        invariant todo <= messages.Keys
        invariant orphaned == messages.Keys - todo - Uids(View().Settled())
      {
        var uid :| uid in todo;
        var have := Referenced(uid);
        if !have {
          orphaned := orphaned + {uid};
        }
        todo := todo - {uid};
      }
    }

    method Prune() returns (nb: nat)
      modifies this
      ensures View() == PruneTx(old(View())) && log == old(log) + [Now()]
      ensures nb == |old(messages).Keys - Uids(old(View()).Settled())|
    {
      var orphaned := FindOrphans();
      nb := |orphaned|;
      PruneParts(View());
      messages := messages - orphaned;
      assert View() == PruneTx(old(View()));
      log := log + [Now()];
    }

    /** One pass of the loop in initGauge: one Inc per key. */
    method IncAll(refs: set<Ref>)
      modifies count
      ensures count.trie == AddAll(old(count.trie), refs)
    {
      var todo := refs;
      AddNone(count.trie);
      assert refs - refs == {};
      while todo != {}
        invariant todo <= refs
        invariant count.trie == AddAll(old(count.trie), refs - todo)
      {
        var r :| r in todo;
        count.Inc(r.uid);
        AddOne(old(count.trie), refs - todo, r);
        assert refs - (todo - {r}) == (refs - todo) + {r};
        todo := todo - {r};
      }
      assert refs - {} == refs;
    }

    /** initGauge: the counts of a starting process. */
    method InitGauge()
      requires count.trie == map[]
      modifies count
      ensures count.trie == InitialCount(View())
    {
      var todo := DESTINATIONS;
      ghost var d := View();
      OfNone(d);
      assert DESTINATIONS - DESTINATIONS == {};
      while todo != {}
        invariant todo <= DESTINATIONS
        invariant count.trie == InitialCount(Of(d, DESTINATIONS - todo))
      {
        var dest :| dest in todo;
        IncAll(set r | r in ready && r.dest == dest);
        IncAll(set r | r in failed && r.dest == dest);
        IncAll(set r | r in perm && r.dest == dest);
        OfOne(d, DESTINATIONS - todo, dest);
        assert DESTINATIONS - (todo - {dest}) == (DESTINATIONS - todo) + {dest};
        todo := todo - {dest};
      }
      assert DESTINATIONS - {} == DESTINATIONS;
      OfAll(d);
    }

    /**
     The recovery part of init. Which resets fail, and whether pruning does, are
     inputs: a failure ends its pass and is only logged. When nothing fails, the
     object runs the recovery steps of the state machine, in the order in which
     its two loops happen to visit the destinations.
     */
    method Recover(now: Dest -> int, brokenSent: set<Dest>, brokenFailed: set<Dest>, pruned: bool,
                   ghost dec: string -> bool, ghost h: History)
      returns (ghost a: seq<Dest>, ghost b: seq<Dest>)
      requires count.trie == map[]
      modifies this, count
      ensures Distinct(a) && Elems(a) !! brokenSent && (Order(a) <==> brokenSent == {})
      ensures Distinct(b) && Elems(b) !! brokenFailed && (Order(b) <==> brokenFailed == {})
      ensures View() == (var e := Passed(old(View()), a, b, now); if pruned then PruneTx(e) else e)
      ensures count.trie == InitialCount(View())
      ensures brokenSent == {} && brokenFailed == {} && pruned ==>
        && Legal(dec, Boot(old(View()), h), RecoverySteps(a, b, now))
        && Snap(Exec(dec, Boot(old(View()), h), RecoverySteps(a, b, now))) == Snapshot(View(), count.trie)
    {
      ghost var s := Boot(View(), h);
      a := ResetStuckInSent(brokenSent, dec, s);
      ghost var t := Exec(dec, s, SentSteps(a));
      b := ResetFailures(now, brokenFailed, dec, t);
      if pruned {
        var _ := Prune();
      }
      InitGauge();
      if Order(a) && Order(b) && pruned { Joined(dec, s, a, b, now); }
    }

    method ResetStuckInSent(broken: set<Dest>, ghost dec: string -> bool, ghost s: Store) returns (ghost a: seq<Dest>)
      requires s.disk == View() && s.phase == ResetSent(DESTINATIONS)
      modifies this
      ensures Distinct(a) && Elems(a) !! broken && (Order(a) <==> broken == {})
      ensures View() == ResetAll(old(View()), a) && Legal(dec, s, SentSteps(a))
      ensures At(Exec(dec, s, SentSteps(a)), View(), AfterSent(DESTINATIONS - Elems(a)), s.count)
    {
      a := [];
      var todo, ok := DESTINATIONS, true;
      VisitFirst(broken);
      assert SentSteps([]) == [];
      while todo != {} && ok
        invariant Visiting(a, broken, todo, ok)
        invariant View() == ResetAll(old(View()), a) && Legal(dec, s, SentSteps(a))
        invariant At(Exec(dec, s, SentSteps(a)), View(), AfterSent(todo), s.count)
        decreases todo, ok
      {
        var dest :| dest in todo;
        VisitNext(a, broken, todo, dest);
        if dest in broken {
          ok := false;
        } else {
          var _ := ResetStuckInSentByDest(dest);
          SentStep(dec, s, a, dest, todo);
          a := a + [dest];
          todo := todo - {dest};
        }
      }
      Visited(a, broken, todo, ok);
    }

    method ResetFailures(now: Dest -> int, broken: set<Dest>, ghost dec: string -> bool, ghost s: Store)
      returns (ghost b: seq<Dest>)
      modifies this
      ensures Distinct(b) && Elems(b) !! broken && (Order(b) <==> broken == {})
      ensures View() == RetryAll(old(View()), b, now)
      ensures s.disk == old(View()) && s.phase == ResetFailed(DESTINATIONS) ==>
        Legal(dec, s, FailedSteps(b, now))
        && At(Exec(dec, s, FailedSteps(b, now)), View(), AfterFailed(DESTINATIONS - Elems(b)), s.count)
    {
      b := [];
      var todo, ok := DESTINATIONS, true;
      ghost var fit := s.disk == View() && s.phase == ResetFailed(DESTINATIONS);
      VisitFirst(broken);
      assert FailedSteps([], now) == [];
      while todo != {} && ok
        invariant Visiting(b, broken, todo, ok)
        invariant View() == RetryAll(old(View()), b, now)
        invariant fit ==> Legal(dec, s, FailedSteps(b, now))
        invariant fit ==> At(Exec(dec, s, FailedSteps(b, now)), View(), AfterFailed(todo), s.count)
        decreases todo, ok
      {
        var dest :| dest in todo;
        VisitNext(b, broken, todo, dest);
        if dest in broken {
          ok := false;
        } else {
          var _, _ := ResetFailuresByDest(dest, now(dest));
          if fit { FailedStep(dec, s, b, dest, todo, now); }
          b := b + [dest];
          todo := todo - {dest};
        }
      }
      Visited(b, broken, todo, ok);
    }

    method ForgetOne(uid: Uid)
      modifies this`log, count
      ensures count.trie == old(count.trie) - {uid} && log == old(log) + [Now()]
    {
      count.Remove(uid);
      log := log + [Now()];
    }

    /** The loop that removes the counts. */
    method Forget(uids: seq<Uid>, ghost dec: string -> bool, ghost s: Store, ghost t: Trace, ghost start: nat)
      returns (ghost u: Trace)
      requires Distinct(uids) && Logged(start, t)
      modifies this`log, count
      ensures Logged(start, u) && old(log) <= log
      ensures count.trie == old(count.trie) - Elems(uids) && u.steps == t.steps + Forgets(uids)
      ensures old(Purging(dec, s, t, Elems(uids))) ==> Reached(dec, s, u, View(), count.trie)
    {
      var i := 0;
      u := t;
      ghost var fit := Purging(dec, s, t, Elems(uids));
      assert count.trie - Elems(uids[..0]) == count.trie;
      while i < |uids|
        invariant 0 <= i <= |uids| && u.steps == t.steps + Forgets(uids[..i])
        invariant count.trie == old(count.trie) - Elems(uids[..i])
        invariant Logged(start, u) && old(log) <= log
        invariant fit ==> Purging(dec, s, u, Elems(uids[i..]))
      {
        assert uids[..i + 1] == uids[..i] + [uids[i]];
        assert Elems(uids[..i + 1]) == Elems(uids[..i]) + {uids[i]};
        assert Forgets(uids[..i + 1]) == Forgets(uids[..i]) + [PurgeForget(uids[i])];
        assert Elems(uids[i + 1..]) == Elems(uids[i..]) - {uids[i]} by { assert uids[i..] == [uids[i]] + uids[i + 1..]; }
        if fit { ForgetStep(dec, s, u, View(), count.trie, Elems(uids[i..]), uids[i]); }
        ForgetOne(uids[i]);
        u := Log(u, PurgeForget(uids[i]), View(), count.trie);
        i := i + 1;
      }
      assert uids[..i] == uids;
    }

    /** A purge has selected these uids. */
    ghost predicate Purging(dec: string -> bool, s: Store, t: Trace, uids: set<Uid>)
      reads this, count
    {
      Reached(dec, s, t, View(), count.trie) && uids <= Exec(dec, s, t.steps).doomed
    }

    /** What GC selects, as steps of the machine: it has read one count after the other. */
    ghost method Select(uids: seq<Uid>, dec: string -> bool, s: Store) returns (u: Trace)
      requires Elems(uids) == Garbage(count.trie)
      modifies this`log
      ensures Logged(|old(log)|, u) && old(log) <= log
      ensures u.steps == Selects(uids)
      ensures Stands(s, View(), count.trie) ==> Purging(dec, s, u, Elems(uids))
    {
      u := NOTHING;
      var i := 0;
      var fit := Stands(s, View(), count.trie);
      while i < |uids|
        invariant 0 <= i <= |uids| && u.steps == Selects(uids[..i])
        invariant Logged(|old(log)|, u) && old(log) <= log
        invariant fit ==> Purging(dec, s, u, Elems(uids[..i]))
      {
        assert uids[..i + 1] == uids[..i] + [uids[i]];
        assert Elems(uids[..i + 1]) == Elems(uids[..i]) + {uids[i]};
        assert Selects(uids[..i + 1]) == Selects(uids[..i]) + [PurgeSelect(uids[i])];
        assert uids[i] in Elems(uids);
        if fit { SelectStep(dec, s, u, View(), count.trie, Elems(uids[..i]), uids[i]); }
        log := log + [Now()];
        u := Log(u, PurgeSelect(uids[i]), View(), count.trie);
        i := i + 1;
      }
      assert uids[..i] == uids;
    }

    /** The transaction that is dropped. */
    method DeleteMany()
      modifies this`log
      ensures log == old(log) + [Now()]
    {
      log := log + [Now()];
    }

    /**
     PurgeBadger: its transaction is dropped without a commit, so only the counts
     change, and not even they when the deletion reports an error. What the object
     held after each of them, as logged, are the states of a legal run of the machine.
     */
    method PurgeBadger(deleted: bool, ghost dec: string -> bool, ghost s: Store) returns (uids: seq<Uid>, ok: bool, ghost t: Trace)
      modifies this`log, count
      ensures View() == old(View()) && old(log) <= log && t.past == log[|old(log)|..]
      ensures Distinct(uids) && Elems(uids) == Garbage(old(count.trie)) && (ok <==> deleted || uids == [])
      ensures count.trie == if ok then old(count.trie) - Garbage(old(count.trie)) else old(count.trie)
      ensures t.steps == if ok then PurgeSteps(uids) else Selects(uids)
      ensures old(Stands(s, View(), count.trie)) ==> Reached(dec, s, t, View(), count.trie)
    {
      uids := count.GC();
      assert Elems(uids) == Garbage(count.trie);
      t := Select(uids, dec, s);
      if |uids| == 0 {
        assert count.trie - Elems(uids) == count.trie;
        return uids, true, t;
      }
      if !deleted {
        return uids, false, t;
      }
      if Stands(s, View(), count.trie) { DeleteStep(dec, s, t, View(), count.trie); }
      DeleteMany();
      t := Log(t, PurgeDelete(false), View(), count.trie);
      t := Forget(uids, dec, s, t, |old(log)|);
      ok := true;
    }
  }

  /** Every destination of the list, for every uid of the batch. */
  function AllRefs(dests: seq<Dest>, uids: set<Uid>): set<Ref> {
    set d, u | d in dests && u in uids :: Ref(d, u)
  }

  /** New applied to a whole batch. */
  function NewAll(count: map<Uid, int>, uids: set<Uid>, init: int): map<Uid, int> {
    if init <= 0 then count else count + map u | u in uids :: init
  }

  lemma AllRefsSnoc(dests: seq<Dest>, uids: set<Uid>, k: nat)
    requires k < |dests|
    ensures AllRefs(dests[..k + 1], uids) == AllRefs(dests[..k], uids) + RefsTo(dests[k], uids)
  {
    assert dests[..k + 1] == dests[..k] + [dests[k]];
    forall r ensures r in AllRefs(dests[..k + 1], uids) <==> r in AllRefs(dests[..k], uids) + RefsTo(dests[k], uids) {
      assert r == Ref(r.dest, r.uid);
    }
  }

  lemma NewAllSnoc(count: map<Uid, int>, uids: set<Uid>, init: nat, u: Uid)
    ensures NewAll(count, uids + {u}, init) == New(NewAll(count, uids, init), u, init)
  {
  }

  lemma ReadiesSnoc(dests: seq<Dest>, uids: set<Uid>, k: nat)
    requires k < |dests|
    ensures Readies(dests[..k + 1], uids) == Readies(dests[..k], uids) + [MakeReady(dests[k], uids)]
  {
    assert dests[..k + 1] == dests[..k] + [dests[k]];
  }

  lemma ScanOne(found: set<Ref>, todo: set<Ref>, r: Ref)
    requires r in todo
    ensures found - (todo - {r}) == (found - todo) + if r in found then {r} else {}
  {
  }

  lemma NackNone(d: Disk, now: int)
    ensures NackTx(d, Elems([]), now) == d && PermTx(d, Elems([]), now) == d
  {
    assert NackTx(d, Elems([]), now).failed == d.failed;
    assert PermTx(d, Elems([]), now).perm == d.perm;
  }

  /** One more entry in the transaction. */
  lemma NackSnoc(d: Disk, nacks: seq<Ref>, i: nat, now: int)
    requires i < |nacks|
    ensures
      var e := NackTx(d, Elems(nacks[..i]), now);
      NackTx(d, Elems(nacks[..i + 1]), now)
      == e.(sent := e.sent - {nacks[i]}, failed := e.failed[nacks[i] := Conv.TimeBytes(now)])
  {
    var some, more := Elems(nacks[..i]), Elems(nacks[..i + 1]);
    assert more == some + {nacks[i]} by { assert nacks[..i + 1] == nacks[..i] + [nacks[i]]; }
    var stamp := Conv.TimeBytes(now);
    assert d.failed + (map r | r in more :: stamp) == (d.failed + (map r | r in some :: stamp))[nacks[i] := stamp];
    assert d.sent - more == (d.sent - some) - {nacks[i]};
  }

  lemma PermSnoc(d: Disk, pes: seq<Ref>, i: nat, now: int)
    requires i < |pes|
    ensures
      var e := PermTx(d, Elems(pes[..i]), now);
      PermTx(d, Elems(pes[..i + 1]), now)
      == e.(sent := e.sent - {pes[i]}, perm := e.perm[pes[i] := Conv.TimeBytes(now)])
  {
    var some, more := Elems(pes[..i]), Elems(pes[..i + 1]);
    assert more == some + {pes[i]} by { assert pes[..i + 1] == pes[..i] + [pes[i]]; }
    var stamp := Conv.TimeBytes(now);
    assert d.perm + (map r | r in more :: stamp) == (d.perm + (map r | r in some :: stamp))[pes[i] := stamp];
    assert d.sent - more == (d.sent - some) - {pes[i]};
  }

  lemma RetrieveParts<M>(decode: string -> Option<M>, d: Disk, dest: Dest, batch: seq<Uid>)
    ensures
      var good, bad := Elems(R.Keep(decode, d.messages, batch)), Elems(R.Reject(decode, d.messages, batch));
      RetrieveTx(R.Decodes(decode), d, dest, Elems(batch))
      == d.(messages := d.messages - bad,
            sent := d.sent + RefsTo(dest, good),
            ready := (d.ready - RefsTo(dest, bad)) - RefsTo(dest, good))
  {
    var dec := R.Decodes(decode);
    var good, bad := Elems(R.Keep(decode, d.messages, batch)), Elems(R.Reject(decode, d.messages, batch));
    R.KeepReject(decode, d.messages, batch);
    assert bad == Unusable(dec, d, Elems(batch));
    assert good == Elems(batch) - bad;
    assert RefsTo(dest, Elems(batch)) == RefsTo(dest, bad) + RefsTo(dest, good);
    assert d.ready - RefsTo(dest, Elems(batch)) == (d.ready - RefsTo(dest, bad)) - RefsTo(dest, good);
  }

  /** A Ready queue in iterator order. */
  ghost predicate Lists(keys: seq<Uid>, dest: Dest, ready: set<Ref>) {
    Distinct(keys) && forall u :: u in keys <==> Ref(dest, u) in ready
  }

  lemma RestReady(ready: set<Ref>, dest: Dest, keys: seq<Uid>, k: nat)
    requires k <= |keys| && Lists(keys, dest, ready)
    ensures Lists(keys[k..], dest, ready - RefsTo(dest, Elems(keys[..k])))
  {
    assert keys == keys[..k] + keys[k..];
    forall u ensures u in keys[k..] <==> Ref(dest, u) in ready - RefsTo(dest, Elems(keys[..k])) {
      assert Ref(dest, u) in RefsTo(dest, Elems(keys[..k])) <==> u in keys[..k];
      assert u in keys[k..] ==> u !in keys[..k];
    }
  }

  lemma RetrieveNone(dec: string -> bool, d: Disk, dest: Dest)
    ensures RetrieveTx(dec, d, dest, {}) == d
  {
    assert Unusable(dec, d, {}) == {} && RefsTo(dest, {}) == {};
    assert d.messages - {} == d.messages;
  }

  /** Two retrieves of different uids are one retrieve of all of them. */
  lemma RetrieveTwice(dec: string -> bool, d: Disk, dest: Dest, a: set<Uid>, b: set<Uid>)
    requires a !! b
    ensures RetrieveTx(dec, RetrieveTx(dec, d, dest, a), dest, b) == RetrieveTx(dec, d, dest, a + b)
  {
    var x, y := Unusable(dec, d, a), Unusable(dec, d, b);
    UnusableApart(dec, d, dest, a, b);
    assert (d.messages - x) - y == d.messages - (x + y);
    RefsToUnion(dest, a, b);
    RefsToUnion(dest, a - x, b - y);
    assert (a + b) - (x + y) == (a - x) + (b - y);
  }

  lemma UnusableApart(dec: string -> bool, d: Disk, dest: Dest, a: set<Uid>, b: set<Uid>)
    requires a !! b
    ensures Unusable(dec, RetrieveTx(dec, d, dest, a), b) == Unusable(dec, d, b)
    ensures Unusable(dec, d, a + b) == Unusable(dec, d, a) + Unusable(dec, d, b)
  {
  }

  lemma RefsToUnion(dest: Dest, a: set<Uid>, b: set<Uid>)
    ensures RefsTo(dest, a + b) == RefsTo(dest, a) + RefsTo(dest, b)
  {
  }

  /** Taking the first keys leaves the contents of the others alone. */
  lemma FetchLater<M>(decode: string -> Option<M>, d: Disk, dest: Dest, keys: seq<Uid>, i: nat, u: Uid)
    requires Distinct(keys) && i <= |keys| && u in keys[i..]
    ensures u !in keys[..i]
    ensures R.Fetch(decode, RetrieveTx(R.Decodes(decode), d, dest, Elems(keys[..i])).messages, u) == R.Fetch(decode, d.messages, u)
  {
  }

  /** After the first keys, the next ones are what they were. */
  lemma NextBatch<M>(decode: string -> Option<M>, d: Disk, dest: Dest, keys: seq<Uid>, i: nat, j: nat)
    requires Distinct(keys) && i <= j <= |keys|
    ensures
      var e := RetrieveTx(R.Decodes(decode), d, dest, Elems(keys[..i]));
      && RetrieveTx(R.Decodes(decode), e, dest, Elems(keys[i..j])) == RetrieveTx(R.Decodes(decode), d, dest, Elems(keys[..j]))
      && R.Keep(decode, e.messages, keys[i..j]) == R.Keep(decode, d.messages, keys[i..j])
  {
    var e := RetrieveTx(R.Decodes(decode), d, dest, Elems(keys[..i]));
    assert Elems(keys[..j]) == Elems(keys[..i]) + Elems(keys[i..j]) by { assert keys[..j] == keys[..i] + keys[i..j]; }
    forall u | u in keys[i..j]
      ensures u !in keys[..i] && R.Fetch(decode, e.messages, u) == R.Fetch(decode, d.messages, u)
    {
      assert u in keys[i..];
      FetchLater(decode, d, dest, keys, i, u);
    }
    RetrieveTwice(R.Decodes(decode), d, dest, Elems(keys[..i]), Elems(keys[i..j]));
    R.KeepAgrees(decode, e.messages, d.messages, keys[i..j]);
  }

  lemma NextHanded<M>(decode: string -> Option<M>, d: Disk, dest: Dest, keys: seq<Uid>, i: nat, j: nat, uids: seq<Uid>, msgs: seq<M>)
    requires Distinct(keys) && i <= j <= |keys|
    requires uids == R.Keep(decode, d.messages, keys[i..j])
    requires R.Handed(decode, RetrieveTx(R.Decodes(decode), d, dest, Elems(keys[..i])).messages, uids, msgs)
    ensures R.Handed(decode, d.messages, uids, msgs)
  {
    R.KeepReject(decode, d.messages, keys[i..j]);
    forall k | 0 <= k < |uids| ensures R.Fetch(decode, d.messages, uids[k]) == Some(msgs[k]) {
      assert uids[k] in keys[i..j] && uids[k] in keys[i..];
      FetchLater(decode, d, dest, keys, i, uids[k]);
    }
  }

  /** Where a recovering store stands. */
  ghost predicate At(t: Store, d: Disk, phase: Phase, count: map<Uid, int>) {
    t.disk == d && t.phase == phase && t.count == count
  }

  /** A pass over the destinations that ends early at one whose transaction fails. */
  ghost predicate Visiting(a: seq<Dest>, broken: set<Dest>, todo: set<Dest>, ok: bool) {
    Distinct(a) && Elems(a) !! broken && todo == DESTINATIONS - Elems(a) && (ok || todo * broken != {})
  }

  lemma VisitFirst(broken: set<Dest>)
    ensures Visiting([], broken, DESTINATIONS, true) && Kafka in DESTINATIONS
  {
  }

  lemma VisitNext(a: seq<Dest>, broken: set<Dest>, todo: set<Dest>, dest: Dest)
    requires Visiting(a, broken, todo, true) && dest in todo
    ensures if dest in broken then Visiting(a, broken, todo, false) else Visiting(a + [dest], broken, todo - {dest}, true)
    ensures (a + [dest])[..|a|] == a
  {
    assert dest in todo * broken <==> dest in broken;
    assert dest !in Elems(a) && Elems(a + [dest]) == Elems(a) + {dest};
  }

  /** A pass that meets no failure visits every destination. */
  lemma Visited(a: seq<Dest>, broken: set<Dest>, todo: set<Dest>, ok: bool)
    requires Visiting(a, broken, todo, ok) && (ok ==> todo == {})
    ensures Order(a) <==> broken == {}
  {
    forall d: Dest ensures d in DESTINATIONS { Inv.AllDests(d); }
    if ok {
      forall d: Dest ensures d in a && d !in broken { assert d !in todo && d in Elems(a); }
    } else {
      var d :| d in todo * broken;
      assert d !in Elems(a);
    }
  }

  /** The two passes, pruning and counting, one after the other. */
  lemma Joined(dec: string -> bool, s: Store, a: seq<Dest>, b: seq<Dest>, now: Dest -> int)
    requires Legal(dec, s, SentSteps(a))
    requires
      var t := Exec(dec, s, SentSteps(a));
      Legal(dec, t, FailedSteps(b, now)) && Exec(dec, t, FailedSteps(b, now)).phase == Pruning
    ensures Legal(dec, s, RecoverySteps(a, b, now))
    ensures
      var e := PruneTx(Exec(dec, Exec(dec, s, SentSteps(a)), FailedSteps(b, now)).disk);
      Snap(Exec(dec, s, RecoverySteps(a, b, now))) == Snapshot(e, InitialCount(e))
  {
    RunConcat(dec, s, SentSteps(a), FailedSteps(b, now));
    var x := SentSteps(a) + FailedSteps(b, now);
    RunSnoc(dec, s, x, Prune);
    RunSnoc(dec, s, x + [Prune], InitCount);
  }

  lemma SentStep(dec: string -> bool, s: Store, a: seq<Dest>, dest: Dest, todo: set<Dest>)
    requires Legal(dec, s, SentSteps(a)) && dest in todo
    requires Exec(dec, s, SentSteps(a)).phase == AfterSent(todo)
    ensures Legal(dec, s, SentSteps(a + [dest]))
    ensures
      var t := Exec(dec, s, SentSteps(a));
      At(Exec(dec, s, SentSteps(a + [dest])), SentTx(t.disk, dest), AfterSent(todo - {dest}), t.count)
  {
    RunSnoc(dec, s, SentSteps(a), RecoverSent(dest));
    assert SentSteps(a + [dest]) == SentSteps(a) + [RecoverSent(dest)];
  }

  lemma FailedStep(dec: string -> bool, s: Store, b: seq<Dest>, dest: Dest, todo: set<Dest>, now: Dest -> int)
    requires Legal(dec, s, FailedSteps(b, now)) && dest in todo
    requires Exec(dec, s, FailedSteps(b, now)).phase == AfterFailed(todo)
    ensures Legal(dec, s, FailedSteps(b + [dest], now))
    ensures
      var t := Exec(dec, s, FailedSteps(b, now));
      At(Exec(dec, s, FailedSteps(b + [dest], now)), RetryTx(t.disk, dest, now(dest)), AfterFailed(todo - {dest}), t.count)
  {
    RunSnoc(dec, s, FailedSteps(b, now), RecoverFailed(dest, now(dest)));
    assert FailedSteps(b + [dest], now) == FailedSteps(b, now) + [RecoverFailed(dest, now(dest))];
  }

  lemma RetryParts(d: Disk, dest: Dest, now: int)
    ensures
      var expired, invalid := Expired(d, dest, now), Invalid(d, dest);
      && RetryTx(d, dest, now) == d.(failed := (d.failed - invalid) - expired, ready := d.ready + expired)
      && (expired == {} && invalid == {} ==> RetryTx(d, dest, now) == d)
  {
    var expired, invalid := Expired(d, dest, now), Invalid(d, dest);
    assert d.failed - (expired + invalid) == (d.failed - invalid) - expired;
    if expired == {} && invalid == {} {
      assert d.failed - (expired + invalid) == d.failed;
      assert d.ready + expired == d.ready;
    }
  }

  lemma PruneParts(d: Disk)
    ensures PruneTx(d) == d.(messages := d.messages - (d.messages.Keys - Uids(d.Settled())))
  {
    assert PruneTx(d).messages == d.messages - (d.messages.Keys - Uids(d.Settled()));
  }

  // ------------------------------------------------------------ tallies

  /** A count map with one more per entry. */
  function AddAll(count: map<Uid, int>, refs: set<Ref>): map<Uid, int> {
    map u | u in count.Keys + Uids(refs) :: (if u in count then count[u] else 0) + |DestsOf(refs, u)|
  }

  lemma AddNone(count: map<Uid, int>)
    ensures AddAll(count, {}) == count
  {
    assert forall u :: DestsOf({}, u) == {};
    assert Uids({}) == {};
  }

  lemma AddOneAt(count: map<Uid, int>, refs: set<Ref>, r: Ref, u: Uid)
    requires r !in refs
    ensures u in AddAll(count, refs + {r}) <==> u in AddAll(count, refs) || u == r.uid
    ensures u in AddAll(count, refs + {r}) ==>
      AddAll(count, refs + {r})[u]
      == (if u in AddAll(count, refs) then AddAll(count, refs)[u] else 0) + (if u == r.uid then 1 else 0)
  {
    assert Uids(refs + {r}) == Uids(refs) + {r.uid};
    StoreCounts.DestsAdd(refs, r, u);
    if u !in AddAll(count, refs) { assert DestsOf(refs, u) == {}; }
  }

  lemma AddOne(count: map<Uid, int>, refs: set<Ref>, r: Ref)
    requires r !in refs
    ensures
      var c := AddAll(count, refs);
      AddAll(count, refs + {r}) == c[r.uid := (if r.uid in c then c[r.uid] else 0) + 1]
  {
    var c, e := AddAll(count, refs), AddAll(count, refs + {r});
    var f := c[r.uid := (if r.uid in c then c[r.uid] else 0) + 1];
    forall u ensures u in e <==> u in f
      ensures u in e ==> e[u] == f[u]
    {
      AddOneAt(count, refs, r, u);
    }
  }

  /** The part of a disk that concerns some destinations. */
  ghost function Of(d: Disk, dests: set<Dest>): Disk {
    d.(ready := (set r | r in d.ready && r.dest in dests),
       failed := (map r | r in d.failed && r.dest in dests :: d.failed[r]),
       perm := (map r | r in d.perm && r.dest in dests :: d.perm[r]))
  }

  lemma OfNone(d: Disk)
    ensures InitialCount(Of(d, {})) == map[]
  {
    assert Of(d, {}).ready + Of(d, {}).failed.Keys + Of(d, {}).perm.Keys == {};
    assert Uids({}) == {};
  }

  lemma OfAll(d: Disk)
    ensures Of(d, DESTINATIONS) == d
  {
    forall x: Dest ensures x in DESTINATIONS { Inv.AllDests(x); }
    assert Of(d, DESTINATIONS).ready == d.ready;
    assert Of(d, DESTINATIONS).failed == d.failed;
    assert Of(d, DESTINATIONS).perm == d.perm;
  }

  /** Adding to one of the three tallied sets. */
  lemma TallyAdd(a: set<Ref>, b: set<Ref>, c: set<Ref>, x: set<Ref>)
    requires x !! a
    ensures Tally(a + x, b, c) == AddAll(Tally(a, b, c), x)
  {
    var t, e := Tally(a, b, c), Tally(a + x, b, c);
    UidsAdd(a + b + c, x);
    assert a + x + b + c == a + b + c + x;
    forall u | u in e ensures e[u] == (if u in t then t[u] else 0) + |DestsOf(x, u)| {
      TallyAt(a, b, c, x, u);
    }
    SameMap(e, AddAll(t, x));
  }

  lemma SameMap(m: map<Uid, int>, n: map<Uid, int>)
    requires m.Keys == n.Keys && forall u :: u in m ==> m[u] == n[u]
    ensures m == n
  {
  }

  lemma UidsAdd(all: set<Ref>, x: set<Ref>)
    ensures Uids(all + x) == Uids(all) + Uids(x)
  {
  }

  lemma TallyAt(a: set<Ref>, b: set<Ref>, c: set<Ref>, x: set<Ref>, u: Uid)
    requires x !! a
    ensures |DestsOf(a + x, u)| == |DestsOf(a, u)| + |DestsOf(x, u)|
    ensures u !in Uids(a + b + c) ==> DestsOf(a, u) == {} && DestsOf(b, u) == {} && DestsOf(c, u) == {}
  {
    Inv.DestsUnion(a, x, u);
    if u !in Uids(a + b + c) {
      NoDests(a, a + b + c, u);
      NoDests(b, a + b + c, u);
      NoDests(c, a + b + c, u);
    }
  }

  lemma NoDests(a: set<Ref>, all: set<Ref>, u: Uid)
    requires a <= all && u !in Uids(all)
    ensures DestsOf(a, u) == {}
  {
  }

  lemma TallySwap(a: set<Ref>, b: set<Ref>, c: set<Ref>)
    ensures Tally(a, b, c) == Tally(b, a, c) && Tally(a, b, c) == Tally(c, b, a)
  {
    assert a + b + c == b + a + c && a + b + c == c + b + a;
  }

  lemma TallyAddAll(a: set<Ref>, b: set<Ref>, c: set<Ref>, x: set<Ref>, y: set<Ref>, z: set<Ref>)
    requires x !! a && y !! b && z !! c
    ensures Tally(a + x, b + y, c + z) == AddAll(AddAll(AddAll(Tally(a, b, c), x), y), z)
  {
    TallyAdd(a, b, c, x);
    TallySwap(a + x, b, c);
    TallyAdd(b, a + x, c, y);
    TallySwap(b + y, a + x, c);
    TallySwap(a + x, b + y, c);
    TallyAdd(c, b + y, a + x, z);
    TallySwap(c + z, b + y, a + x);
  }

  lemma OfSplit(d: Disk, dests: set<Dest>, dest: Dest)
    requires dest !in dests
    ensures
      var x, y := Of(d, dests), Of(d, dests + {dest});
      && y.ready == x.ready + Just(d.ready, dest) && Just(d.ready, dest) !! x.ready
      && y.failed.Keys == x.failed.Keys + Just(d.failed.Keys, dest) && Just(d.failed.Keys, dest) !! x.failed.Keys
      && y.perm.Keys == x.perm.Keys + Just(d.perm.Keys, dest) && Just(d.perm.Keys, dest) !! x.perm.Keys
  {
    OfKeys(d, dests);
    OfKeys(d, dests + {dest});
    JustSplit(d.ready, dests, dest);
    JustSplit(d.failed.Keys, dests, dest);
    JustSplit(d.perm.Keys, dests, dest);
  }

  ghost function OfThese(refs: set<Ref>, dests: set<Dest>): set<Ref> {
    set r | r in refs && r.dest in dests
  }

  lemma OfKeys(d: Disk, dests: set<Dest>)
    ensures Of(d, dests).ready == OfThese(d.ready, dests)
    ensures Of(d, dests).failed.Keys == OfThese(d.failed.Keys, dests)
    ensures Of(d, dests).perm.Keys == OfThese(d.perm.Keys, dests)
  {
  }

  lemma JustSplit(refs: set<Ref>, dests: set<Dest>, dest: Dest)
    requires dest !in dests
    ensures OfThese(refs, dests + {dest}) == OfThese(refs, dests) + Just(refs, dest)
    ensures Just(refs, dest) !! OfThese(refs, dests)
  {
  }

  /** One more destination: its three queues, in turn. */
  lemma OfOne(d: Disk, dests: set<Dest>, dest: Dest)
    requires dest !in dests
    ensures
      var r, f, p := Just(d.ready, dest), Just(d.failed.Keys, dest), Just(d.perm.Keys, dest);
      InitialCount(Of(d, dests + {dest})) == AddAll(AddAll(AddAll(InitialCount(Of(d, dests)), r), f), p)
  {
    OfSplit(d, dests, dest);
    var x := Of(d, dests);
    TallyAddAll(x.ready, x.failed.Keys, x.perm.Keys,
                Just(d.ready, dest), Just(d.failed.Keys, dest), Just(d.perm.Keys, dest));
  }

  ghost function Just(refs: set<Ref>, dest: Dest): set<Ref> {
    set r | r in refs && r.dest == dest
  }
}
