/** Reference counts of stored messages (utils/refcount.go). */
module RefCount {
  import opened StoreState

  class RefCount {
    var trie: map<Uid, int>

    constructor ()
      ensures trie == map[]
    {
      trie := map[];
    }

    /** Starts counting a uid; a count that is not positive is not kept. */
    method New(uid: Uid, init: int)
      modifies this
      ensures trie == StoreState.New(old(trie), uid, init)
    {
      if init <= 0 {
        return;
      }
      trie := trie[uid := init];
    }

    /** True when the count reaches zero; an unknown uid is ignored. */
    method Dec(uid: Uid) returns (zero: bool)
      modifies this
      ensures trie == StoreState.Dec(old(trie), uid)
      ensures zero <==> uid in old(trie) && old(trie)[uid] == 1
    {
      if uid !in trie {
        return false;
      }
      trie := trie[uid := trie[uid] - 1];
      return trie[uid] == 0;
    }

    method Inc(uid: Uid)
      modifies this
      ensures trie == old(trie)[uid := (if uid in old(trie) then old(trie)[uid] else 0) + 1]
    {
      if uid !in trie {
        trie := trie[uid := 0];
      }
      trie := trie[uid := trie[uid] + 1];
    }

    method Remove(uid: Uid)
      modifies this
      ensures trie == old(trie) - {uid}
    {
      trie := trie - {uid};
    }

    /** The uids to purge, each once. */
    method GC() returns (ret: seq<Uid>)
      ensures Distinct(ret)
      ensures forall u :: u in ret <==> u in Garbage(trie)
    {
      ret := [];
      var todo := trie.Keys;
      while todo != {}
        invariant todo <= trie.Keys
        invariant Distinct(ret)
        invariant forall u :: u in ret <==> u in trie && u !in todo && trie[u] <= 0
      {
        var u :| u in todo;
        if trie[u] <= 0 {
          ret := ret + [u];
        }
        todo := todo - {u};
      }
    }
  }
}
