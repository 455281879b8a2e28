/** Go's maps, which are iterated over in an arbitrary order. */
module Listings {
  import opened Bytes

  /** A map in the order in which it is iterated over. */
  type Listing<V> = seq<(Data, V)>

  function MapFrom<V>(m: map<Data, V>, ps: Listing<V>): map<Data, V>
    decreases |ps|
  {
    if ps == [] then m else MapFrom(m[ps[0].0 := ps[0].1], ps[1..])
  }

  lemma {:induction false} MapFromSnoc<V>(m: map<Data, V>, ps: Listing<V>, p: (Data, V))
    ensures MapFrom(m, ps + [p]) == MapFrom(m, ps)[p.0 := p.1]
    decreases |ps|
  {
    if ps == [] {
      assert (ps + [p])[1..] == [];
    } else {
      assert (ps + [p])[1..] == ps[1..] + [p];
      MapFromSnoc(m[ps[0].0 := ps[0].1], ps[1..], p);
    }
  }

  /** What has been written while the keys in `left` are still to come. */
  function Without<V>(m: map<Data, V>, left: set<Data>): map<Data, V> { m - left }

  lemma OneMore<V>(m: map<Data, V>, left: set<Data>, k: Data)
    requires left <= m.Keys && k in left
    ensures Without(m, left - {k}) == Without(m, left)[k := m[k]]
  {
  }

  lemma AllLeft<V>(m: map<Data, V>)
    ensures Without(m, m.Keys) == map[] && Without(m, {}) == m && |m.Keys| == |m|
  {
  }

  /** The sum of a number over all entries of a map. */
  ghost function Total<V>(f: (Data, V) -> nat, m: map<Data, V>): nat
    decreases |m|
  {
    if m == map[] then 0
    else
      var k :| k in m;
      assert |m - {k}| < |m| by { TakeOne(m, k); }
      f(k, m[k]) + Total(f, m - {k})
  }

  lemma TakeOne<V>(m: map<Data, V>, k: Data)
    requires k in m
    ensures |m - {k}| == |m| - 1
  {
    assert (m - {k}).Keys == m.Keys - {k};
    assert |m.Keys| == |m| && |(m - {k}).Keys| == |m - {k}|;
  }

  /** The sum does not depend on the order: any entry may be counted first. */
  lemma {:induction false} TotalTake<V>(f: (Data, V) -> nat, m: map<Data, V>, k: Data)
    requires k in m
    ensures Total(f, m) == f(k, m[k]) + Total(f, m - {k})
    decreases |m|
  {
    TakeOne(m, k);
    var j :| j in m && Total(f, m) == f(j, m[j]) + Total(f, m - {j});
    if j != k {
      TakeOne(m, j);
      TotalTake(f, m - {j}, k);
      TotalTake(f, m - {k}, j);
      assert m - {j} - {k} == m - {k} - {j};
    }
  }

  /** The entries of a map that are still to come. */
  ghost predicate Within<V>(left: map<Data, V>, m: map<Data, V>) {
    left.Keys <= m.Keys && forall k :: k in left ==> left[k] == m[k]
  }

  /** One entry is listed and taken off the rest. */
  lemma Listed<V>(m: map<Data, V>, left: map<Data, V>, k: Data, ps: Listing<V>, v: V)
    requires Within(left, m) && k in left && v == m[k]
    ensures Within(left - {k}, m) && |left - {k}| < |left|
    ensures
      MapFrom(map[], ps) == Without(m, left.Keys) ==>
      MapFrom(map[], ps + [(k, v)]) == Without(m, (left - {k}).Keys)
  {
    TakeOne(left, k);
    MapFromSnoc(map[], ps, (k, v));
    OneMore(m, left.Keys, k);
    assert (left - {k}).Keys == left.Keys - {k};
  }

  /** Going on to the next entry of a map while adding up. */
  lemma NextEntry<V>(f: (Data, V) -> nat, m: map<Data, V>, left: map<Data, V>, k: Data)
    requires Within(left, m) && k in left
    ensures Within(left - {k}, m) && |left - {k}| < |left| && k in m && left[k] == m[k]
    ensures Total(f, left) == f(k, m[k]) + Total(f, left - {k})
  {
    TakeOne(left, k);
    TotalTake(f, left, k);
  }

  /** A listing of written values as a listing of what they stand for. */
  function Meaning<V, W>(mean: W -> V, ps: Listing<W>): Listing<V> {
    if ps == [] then [] else [(ps[0].0, mean(ps[0].1))] + Meaning(mean, ps[1..])
  }

  lemma {:induction false} MeaningSnoc<V, W>(mean: W -> V, ps: Listing<W>, p: (Data, W))
    ensures Meaning(mean, ps + [p]) == Meaning(mean, ps) + [(p.0, mean(p.1))]
  {
    if ps == [] {
      assert (ps + [p])[1..] == [];
    } else {
      assert (ps + [p])[1..] == ps[1..] + [p];
      MeaningSnoc(mean, ps[1..], p);
    }
  }

  function Same(s: Data): Data { s }

  lemma {:induction false} MeaningSame(ps: Listing<Data>)
    ensures Meaning(Same, ps) == ps
  {
    if ps == [] {
    } else {
      MeaningSame(ps[1..]);
      assert ps == [(ps[0].0, Same(ps[0].1))] + ps[1..];
    }
  }

  /** Things written one after the other. */
  function Concat<T>(enc: T -> Data, ps: seq<T>): Data {
    if ps == [] then [] else enc(ps[0]) + Concat(enc, ps[1..])
  }

  lemma {:induction false} ConcatSnoc<T>(enc: T -> Data, ps: seq<T>, p: T)
    ensures Concat(enc, ps + [p]) == Concat(enc, ps) + enc(p)
  {
    if ps == [] {
      assert (ps + [p])[1..] == [];
    } else {
      assert (ps + [p])[1..] == ps[1..] + [p];
      ConcatSnoc(enc, ps[1..], p);
    }
  }

  /** Between two entries: what has been written, and the bytes that are still to come. */
  ghost predicate Done<V, W>(
    enc: ((Data, W)) -> Data, size: (Data, V) -> nat, mean: W -> V,
    m: map<Data, V>, left: map<Data, V>, ps: Listing<W>, start: Data, now: Data)
  {
    && Within(left, m)
    && MapFrom(map[], Meaning(mean, ps)) == Without(m, left.Keys)
    && now == start + Concat(enc, ps)
    && |now| + Total(size, left) == |start| + Total(size, m)
  }

  lemma DoneStep<V, W>(
    enc: ((Data, W)) -> Data, size: (Data, V) -> nat, mean: W -> V,
    m: map<Data, V>, left: map<Data, V>, ps: Listing<W>, start: Data, now: Data, k: Data, w: W)
    requires Done(enc, size, mean, m, left, ps, start, now)
    requires k in left && mean(w) == m[k] && |enc((k, w))| == size(k, m[k])
    ensures |left - {k}| < |left|
    ensures Done(enc, size, mean, m, left - {k}, ps + [(k, w)], start, now + enc((k, w)))
  {
    MeaningSnoc(mean, ps, (k, w));
    Listed(m, left, k, Meaning(mean, ps), m[k]);
    ConcatSnoc(enc, ps, (k, w));
    TotalTake(size, left, k);
    assert start + Concat(enc, ps) + enc((k, w)) == start + (Concat(enc, ps) + enc((k, w)));
  }

  lemma DoneFirst<V, W>(
    enc: ((Data, W)) -> Data, size: (Data, V) -> nat, mean: W -> V, m: map<Data, V>, start: Data)
    ensures Done(enc, size, mean, m, m, [], start, start)
  {
    AllLeft(m);
    assert start + [] == start;
  }

  lemma DoneLast<V, W>(
    enc: ((Data, W)) -> Data, size: (Data, V) -> nat, mean: W -> V,
    m: map<Data, V>, ps: Listing<W>, start: Data, now: Data)
    requires Done(enc, size, mean, m, map[], ps, start, now)
    ensures |now| == |start| + Total(size, m) && MapFrom(map[], Meaning(mean, ps)) == m
  {
    AllLeft(m);
    var none: map<Data, V> := map[];
    assert none.Keys == {};
  }

  /** While entries remain, there is room for the next one. */
  lemma DoneRoom<V, W>(
    enc: ((Data, W)) -> Data, size: (Data, V) -> nat, mean: W -> V,
    m: map<Data, V>, left: map<Data, V>, ps: Listing<W>, start: Data, now: Data, k: Data)
    requires Done(enc, size, mean, m, left, ps, start, now) && k in left
    ensures k in m && m[k] == left[k]
    ensures |now| + size(k, m[k]) <= |start| + Total(size, m)
  {
    TotalTake(size, left, k);
  }

  function InnerMap(ps: Listing<Data>): map<Data, Data> { MapFrom(map[], ps) }

  function OuterMap(qs: Listing<Listing<Data>>): map<Data, map<Data, Data>> {
    MapFrom(map[], Meaning(InnerMap, qs))
  }

  predicate DistinctKeys<V>(ps: Listing<V>) {
    forall i, j :: 0 <= i < j < |ps| ==> ps[i].0 != ps[j].0
  }

  ghost function KeysOf<V>(ps: Listing<V>): set<Data> { set i | 0 <= i < |ps| :: ps[i].0 }

  lemma {:induction false} MapFromKeys<V>(m: map<Data, V>, ps: Listing<V>)
    ensures MapFrom(m, ps).Keys == m.Keys + KeysOf(ps)
    decreases |ps|
  {
    if ps == [] {
    } else {
      MapFromKeys(m[ps[0].0 := ps[0].1], ps[1..]);
      assert KeysOf(ps) == {ps[0].0} + KeysOf(ps[1..]) by {
        forall k | k in KeysOf(ps) ensures k in {ps[0].0} + KeysOf(ps[1..]) {
          var i :| 0 <= i < |ps| && ps[i].0 == k;
          if i > 0 { assert ps[1..][i - 1].0 == k; }
        }
        forall k | k in KeysOf(ps[1..]) ensures k in KeysOf(ps) {
          var i :| 0 <= i < |ps[1..]| && ps[1..][i].0 == k;
          assert ps[i + 1].0 == k;
        }
      }
    }
  }

  lemma {:induction false} MapFromKeeps<V>(m: map<Data, V>, ps: Listing<V>, k: Data)
    requires k in m && forall i :: 0 <= i < |ps| ==> ps[i].0 != k
    ensures k in MapFrom(m, ps) && MapFrom(m, ps)[k] == m[k]
    decreases |ps|
  {
    if ps == [] {
    } else {
      assert forall i :: 0 <= i < |ps[1..]| ==> ps[1..][i] == ps[i + 1];
      MapFromKeeps(m[ps[0].0 := ps[0].1], ps[1..], k);
    }
  }

  /** A listing without repetition gives every key its own value. */
  lemma {:induction false} MapFromAt<V>(m: map<Data, V>, ps: Listing<V>, i: nat)
    requires DistinctKeys(ps) && i < |ps|
    ensures ps[i].0 in MapFrom(m, ps) && MapFrom(m, ps)[ps[i].0] == ps[i].1
    decreases |ps|
  {
    assert forall j :: 0 <= j < |ps[1..]| ==> ps[1..][j] == ps[j + 1];
    if i == 0 {
      MapFromKeeps(m[ps[0].0 := ps[0].1], ps[1..], ps[0].0);
    } else {
      MapFromAt(m[ps[0].0 := ps[0].1], ps[1..], i - 1);
    }
  }

  /** What is written starts with the first thing written. */
  lemma ConcatStart<T>(enc: T -> Data, xs: seq<T>, rest: Data)
    requires xs != [] && enc(xs[0]) != []
    ensures (Concat(enc, xs) + rest) != [] && (Concat(enc, xs) + rest)[0] == enc(xs[0])[0]
  {
  }

  lemma MeaningStep<V, W>(mean: W -> V, ps: Listing<W>, m: map<Data, V>)
    requires ps != []
    ensures
      MapFrom(m, Meaning(mean, ps)) == MapFrom(m[ps[0].0 := mean(ps[0].1)], Meaning(mean, ps[1..]))
  {
    var r := Meaning(mean, ps[1..]);
    assert ([(ps[0].0, mean(ps[0].1))] + r)[1..] == r;
  }

  lemma {:induction false} MeaningAt<V, W>(mean: W -> V, ps: Listing<W>, i: nat)
    requires i < |ps|
    ensures |Meaning(mean, ps)| == |ps| && Meaning(mean, ps)[i] == (ps[i].0, mean(ps[i].1))
  {
    if i > 0 { MeaningAt(mean, ps[1..], i - 1); } else { MeaningLength(mean, ps); }
  }

  lemma {:induction false} MeaningLength<V, W>(mean: W -> V, ps: Listing<W>)
    ensures |Meaning(mean, ps)| == |ps|
  {
    if ps == [] {
    } else {
      MeaningLength(mean, ps[1..]);
    }
  }

  lemma DistinctSnoc<V, W>(mean: W -> V, ps: Listing<W>, k: Data, w: W)
    requires DistinctKeys(ps) && k !in MapFrom(map[], Meaning(mean, ps))
    ensures DistinctKeys(ps + [(k, w)])
  {
    var qs := Meaning(mean, ps);
    MapFromKeys(map[], qs);
    MeaningLength(mean, ps);
    forall i | 0 <= i < |ps| ensures ps[i].0 != k {
      MeaningAt(mean, ps, i);
      assert qs[i].0 in KeysOf(qs);
    }
  }

  /** In the middle of a map: the entries seen so far, each once. */
  ghost predicate Iterated<V, W>(mean: W -> V, m: map<Data, V>, left: map<Data, V>, ps: Listing<W>) {
    && Within(left, m) && |ps| + |left| == |m|
    && MapFrom(map[], Meaning(mean, ps)) == Without(m, left.Keys)
    && DistinctKeys(ps)
  }

  lemma IteratedFirst<V, W>(mean: W -> V, m: map<Data, V>)
    ensures Iterated(mean, m, m, [])
  {
    AllLeft(m);
  }

  lemma IteratedStep<V, W>(mean: W -> V, m: map<Data, V>, left: map<Data, V>, ps: Listing<W>, k: Data, w: W)
    requires Iterated(mean, m, left, ps) && k in left && mean(w) == m[k]
    ensures |left - {k}| < |left| && Iterated(mean, m, left - {k}, ps + [(k, w)])
  {
    TakeOne(left, k);
    MeaningSnoc(mean, ps, (k, w));
    Listed(m, left, k, Meaning(mean, ps), m[k]);
    DistinctSnoc(mean, ps, k, w);
  }

  lemma IteratedLast<V, W>(mean: W -> V, m: map<Data, V>, ps: Listing<W>)
    requires Iterated(mean, m, map[], ps)
    ensures MapFrom(map[], Meaning(mean, ps)) == m && DistinctKeys(ps) && |ps| == |m|
  {
    AllLeft(m);
    var none: map<Data, V> := map[];
    assert none.Keys == {};
  }

  /** The entries of a listing without repetition are those of its map. */
  lemma EntriesAgree<V, W>(mean: W -> V, ps: Listing<W>, m: map<Data, V>)
    requires DistinctKeys(ps) && MapFrom(map[], Meaning(mean, ps)) == m
    ensures forall i :: 0 <= i < |ps| ==> ps[i].0 in m && m[ps[i].0] == mean(ps[i].1)
    ensures forall k :: k in m ==> exists i :: 0 <= i < |ps| && ps[i].0 == k
  {
    var qs := Meaning(mean, ps);
    MeaningLength(mean, ps);
    forall i, j | 0 <= i < j < |qs| ensures qs[i].0 != qs[j].0 {
      MeaningAt(mean, ps, i);
      MeaningAt(mean, ps, j);
    }
    forall i | 0 <= i < |ps| ensures ps[i].0 in m && m[ps[i].0] == mean(ps[i].1) {
      MeaningAt(mean, ps, i);
      MapFromAt(map[], qs, i);
    }
    MapFromKeys(map[], qs);
    forall k | k in m ensures exists i :: 0 <= i < |ps| && ps[i].0 == k {
      assert k in KeysOf(qs);
      var i :| 0 <= i < |qs| && qs[i].0 == k;
      MeaningAt(mean, ps, i);
    }
  }
}
