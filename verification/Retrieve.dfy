/** Selecting a batch of ready messages (retrieveIterHelper in store/store.go). */
module Retrieve {
  import opened Bytes
  import opened StoreState

  /** The content of a uid, when it can be handed out as a message. */
  function Fetch<M>(decode: string -> Option<M>, messages: map<Uid, string>, uid: Uid): Option<M> {
    if uid !in messages || messages[uid] == "" then None else decode(messages[uid])
  }

  /** Which contents decode. */
  function Decodes<M>(decode: string -> Option<M>): string -> bool {
    (c: string) => decode(c).Some?
  }

  /** The keys of a batch whose content can be handed out, in order. */
  function Keep<M>(decode: string -> Option<M>, messages: map<Uid, string>, keys: seq<Uid>): seq<Uid> {
    if keys == [] then []
    else
      var k := |keys| - 1;
      var rest := Keep(decode, messages, keys[..k]);
      if Fetch(decode, messages, keys[k]).Some? then rest + [keys[k]] else rest
  }

  /** The other keys of a batch, in order. */
  function Reject<M>(decode: string -> Option<M>, messages: map<Uid, string>, keys: seq<Uid>): seq<Uid> {
    if keys == [] then []
    else
      var k := |keys| - 1;
      var rest := Reject(decode, messages, keys[..k]);
      if Fetch(decode, messages, keys[k]).Some? then rest else rest + [keys[k]]
  }

  /** Kept and rejected keys split the batch by whether the content can be handed out. */
  lemma {:induction false} KeepReject<M>(decode: string -> Option<M>, messages: map<Uid, string>, keys: seq<Uid>)
    ensures |Keep(decode, messages, keys)| + |Reject(decode, messages, keys)| == |keys|
    ensures forall u :: u in Keep(decode, messages, keys) <==> u in keys && Fetch(decode, messages, u).Some?
    ensures forall u :: u in Reject(decode, messages, keys) <==> u in keys && Fetch(decode, messages, u).None?
  {
    if keys == [] {
    } else {
      var k := |keys| - 1;
      KeepReject(decode, messages, keys[..k]);
      assert keys == keys[..k] + [keys[k]];
    }
  }

  /** A kept key comes from the batch, and kept keys keep their order. */
  lemma {:induction false} KeepInOrder<M>(decode: string -> Option<M>, messages: map<Uid, string>, keys: seq<Uid>)
    returns (at: seq<nat>)
    ensures |at| == |Keep(decode, messages, keys)|
    ensures forall j :: 0 <= j < |at| ==> at[j] < |keys| && Keep(decode, messages, keys)[j] == keys[at[j]]
    ensures forall i, j :: 0 <= i < j < |at| ==> at[i] < at[j]
  {
    at := [];
    if keys == [] {
    } else {
      var k := |keys| - 1;
      at := KeepInOrder(decode, messages, keys[..k]);
      if Fetch(decode, messages, keys[k]).Some? { at := at + [k]; }
    }
  }

  function Min(a: nat, b: nat): nat { if a < b then a else b }

  /** The messages of the kept keys. */
  function Messages<M>(decode: string -> Option<M>, messages: map<Uid, string>, keys: seq<Uid>): seq<M> {
    if keys == [] then []
    else
      var k := |keys| - 1;
      var rest := Messages(decode, messages, keys[..k]);
      match Fetch(decode, messages, keys[k])
      case Some(m) => rest + [m]
      case None => rest
  }

  /** Uids and messages stay aligned. */
  lemma {:induction false} Aligned<M>(decode: string -> Option<M>, messages: map<Uid, string>, keys: seq<Uid>)
    ensures |Messages(decode, messages, keys)| == |Keep(decode, messages, keys)|
    ensures forall j :: 0 <= j < |Keep(decode, messages, keys)| ==>
      Fetch(decode, messages, Keep(decode, messages, keys)[j]) == Some(Messages(decode, messages, keys)[j])
  {
    if keys == [] {
    } else {
      Aligned(decode, messages, keys[..|keys| - 1]);
    }
  }

  /** The first loop: keys off the iterator, up to the batch size. */
  method FetchKeys(keys: seq<Uid>, batchSize: nat, all: array<Uid>) returns (fetched: nat)
    requires all.Length >= batchSize
    modifies all
    ensures fetched == Min(batchSize, |keys|) && all[..fetched] == keys[..fetched]
  {
    fetched := 0;
    while fetched < batchSize && fetched < |keys|
      invariant 0 <= fetched <= Min(batchSize, |keys|)
      invariant all[..fetched] == keys[..fetched]
    {
      all[fetched] := keys[fetched];
      fetched := fetched + 1;
    }
  }

  /**
   The second loop: the filter. Its result goes to `filtered`, which is `all`
   itself unless growing has moved the key list to new storage.
   */
  method Filter<M>(decode: string -> Option<M>, messages: map<Uid, string>, all: array<Uid>, fetched: nat, filtered: array<Uid>)
    returns (nb: nat, msgs: seq<M>, invalid: seq<Uid>)
    requires fetched <= all.Length && fetched <= filtered.Length
    modifies all, filtered
    ensures nb <= fetched && filtered[..nb] == Keep(decode, messages, old(all[..fetched]))
    ensures msgs == Messages(decode, messages, old(all[..fetched]))
    ensures invalid == Reject(decode, messages, old(all[..fetched]))
  {
    ghost var keys := all[..fetched];
    nb, msgs, invalid := 0, [], [];
    var i := 0;
    while i < fetched
      invariant 0 <= i <= fetched && nb <= i
      invariant filtered[..nb] == Keep(decode, messages, keys[..i])
      invariant msgs == Messages(decode, messages, keys[..i])
      invariant invalid == Reject(decode, messages, keys[..i])
      // what is still to be read has not been written over
      invariant all[i..fetched] == keys[i..]
    {
      var uid := all[i];
      assert uid == all[i..fetched][0];
      assert keys[..i + 1][..i] == keys[..i] && keys[..i + 1][i] == uid;
      if uid !in messages || messages[uid] == "" {
        invalid := invalid + [uid];
      } else {
        match decode(messages[uid])
        case None => invalid := invalid + [uid];
        case Some(m) =>
          msgs := msgs + [m];
          ghost var before := filtered[..nb];
          filtered[nb] := uid;
          nb := nb + 1;
          assert filtered[..nb] == before + [uid];
      }
      assert all[i + 1..fetched] == keys[i + 1..];
      i := i + 1;
    }
    assert keys[..i] == keys;
  }

  // ------------------------------------------------------------ batch after batch

  lemma {:induction false} KeepConcat<M>(decode: string -> Option<M>, messages: map<Uid, string>, a: seq<Uid>, b: seq<Uid>)
    ensures Keep(decode, messages, a + b) == Keep(decode, messages, a) + Keep(decode, messages, b)
  {
    if b == [] {
      assert a + b == a;
    } else {
      var k := |b| - 1;
      KeepConcat(decode, messages, a, b[..k]);
      assert (a + b)[..|a + b| - 1] == a + b[..k];
    }
  }

  lemma KeepNext<M>(decode: string -> Option<M>, messages: map<Uid, string>, keys: seq<Uid>, i: nat, j: nat)
    requires i <= j <= |keys|
    ensures Keep(decode, messages, keys[..j]) == Keep(decode, messages, keys[..i]) + Keep(decode, messages, keys[i..j])
  {
    assert keys[..j] == keys[..i] + keys[i..j];
    KeepConcat(decode, messages, keys[..i], keys[i..j]);
  }

  /** Each uid comes with its own message. */
  ghost predicate Handed<M>(decode: string -> Option<M>, messages: map<Uid, string>, uids: seq<Uid>, msgs: seq<M>) {
    |msgs| == |uids| && forall j :: 0 <= j < |uids| ==> Fetch(decode, messages, uids[j]) == Some(msgs[j])
  }

  lemma HandedConcat<M>(decode: string -> Option<M>, messages: map<Uid, string>, uids: seq<Uid>, msgs: seq<M>,
                        more: seq<Uid>, batch: seq<M>)
    requires Handed(decode, messages, uids, msgs) && Handed(decode, messages, more, batch)
    ensures Handed(decode, messages, uids + more, msgs + batch)
  {
  }

  /** Contents of other uids do not matter. */
  lemma {:induction false} KeepAgrees<M>(decode: string -> Option<M>, m: map<Uid, string>, n: map<Uid, string>, keys: seq<Uid>)
    requires forall u :: u in keys ==> Fetch(decode, m, u) == Fetch(decode, n, u)
    ensures Keep(decode, m, keys) == Keep(decode, n, keys)
  {
    if keys == [] {
    } else {
      KeepAgrees(decode, m, n, keys[..|keys| - 1]);
    }
  }

  /**
   Whether the loop stops before the queue is empty: it takes the first batch
   without a usable content for the end of the queue.
   */
  predicate Stalls<M>(decode: string -> Option<M>, messages: map<Uid, string>, keys: seq<Uid>, batchSize: nat) {
    && batchSize < |keys|
    && (batchSize == 0 || Keep(decode, messages, keys[..batchSize]) == [] || Stalls(decode, messages, keys[batchSize..], batchSize))
  }

  /** Where the batch that starts at a position ends. */
  function Upto(keys: seq<Uid>, i: nat, batchSize: nat): nat
    requires i <= |keys|
  {
    i + Min(batchSize, |keys| - i)
  }

  lemma StallsNext<M>(decode: string -> Option<M>, messages: map<Uid, string>, keys: seq<Uid>, i: nat, batchSize: nat)
    requires i <= |keys|
    ensures
      var j := Upto(keys, i, batchSize);
      Stalls(decode, messages, keys[i..], batchSize)
      <==> j < |keys| && (Keep(decode, messages, keys[i..j]) == [] || Stalls(decode, messages, keys[j..], batchSize))
  {
    if batchSize < |keys| - i {
      assert keys[i..][..batchSize] == keys[i..i + batchSize];
      assert keys[i..][batchSize..] == keys[i + batchSize..];
    }
  }

  /** One empty content at the head of the queue is enough, with batches of one. */
  lemma EmptyContentStalls<M>(decode: string -> Option<M>, messages: map<Uid, string>, keys: seq<Uid>)
    requires |keys| > 1 && keys[0] in messages && messages[keys[0]] == ""
    ensures Stalls(decode, messages, keys, 1)
  {
    assert keys[..1][..0] == [];
    assert keys[..1][0] == keys[0];
  }

  /** The k-th batch is not the last one and has no usable content. */
  ghost predicate Idle<M>(decode: string -> Option<M>, messages: map<Uid, string>, keys: seq<Uid>, batchSize: nat, k: nat) {
    k * batchSize <= (k + 1) * batchSize < |keys|
    && forall u :: u in keys[k * batchSize..(k + 1) * batchSize] ==> Fetch(decode, messages, u).None?
  }

  lemma IdleFirst<M>(decode: string -> Option<M>, messages: map<Uid, string>, keys: seq<Uid>, batchSize: nat)
    ensures
      Idle(decode, messages, keys, batchSize, 0)
      <==> batchSize < |keys| && Keep(decode, messages, keys[..batchSize]) == []
  {
    if batchSize < |keys| {
      var first := keys[..batchSize];
      KeepReject(decode, messages, first);
      if Keep(decode, messages, first) != [] { assert Keep(decode, messages, first)[0] in first; }
      assert 0 * batchSize == 0 && (0 + 1) * batchSize == batchSize && keys[0..batchSize] == first;
    }
  }

  lemma IdleLater<M>(decode: string -> Option<M>, messages: map<Uid, string>, keys: seq<Uid>, batchSize: nat, k: nat)
    requires batchSize < |keys|
    ensures
      Idle(decode, messages, keys, batchSize, k + 1) <==> Idle(decode, messages, keys[batchSize..], batchSize, k)
  {
    var a, b := k * batchSize, (k + 1) * batchSize;
    assert (k + 1) * batchSize == a + batchSize && (k + 1 + 1) * batchSize == b + batchSize && a <= b;
    if b + batchSize < |keys| { assert keys[batchSize..][a..b] == keys[a + batchSize..b + batchSize]; }
  }

  /** The loop stops early exactly when some batch before the last has no usable content. */
  lemma {:induction false} StallsWhen<M>(decode: string -> Option<M>, messages: map<Uid, string>, keys: seq<Uid>, batchSize: nat)
    ensures Stalls(decode, messages, keys, batchSize) <==> exists k: nat :: Idle(decode, messages, keys, batchSize, k)
    decreases |keys|
  {
    IdleFirst(decode, messages, keys, batchSize);
    if batchSize >= |keys| {
      forall k: nat ensures !Idle(decode, messages, keys, batchSize, k) {
        assert (k + 1) * batchSize == k * batchSize + batchSize;
      }
    } else if batchSize == 0 {
      assert keys[..0] == [];
      assert Idle(decode, messages, keys, batchSize, 0);
    } else {
      StallsWhen(decode, messages, keys[batchSize..], batchSize);
      if k: nat :| Idle(decode, messages, keys[batchSize..], batchSize, k) {
        IdleLater(decode, messages, keys, batchSize, k);
      }
      if k: nat :| Idle(decode, messages, keys, batchSize, k) && k > 0 {
        IdleLater(decode, messages, keys, batchSize, k - 1);
      }
    }
  }
}
