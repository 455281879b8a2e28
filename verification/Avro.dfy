/** The Avro form of a message (model/avro/primitive.go). */
module Avro {
  import opened Bytes
  import opened Listings
  import opened Varint

  const MAX_STRING: nat := 0x7FFF_FFFF

  // ---------------------------------------------------------------- numbers

  /** encodeInt: seven bits at a time, low bits first. */
  method EncodeInt(encoded: nat) returns (bb: Data)
    requires encoded < TWO64
    ensures bb == Enc(encoded)
  {
    if encoded == 0 { return [0]; }
    bb := [];
    var v: nat := encoded;
    assert [] + Enc(v) == Enc(encoded);
    while v > 0
      invariant v < TWO64
      invariant if v > 0 then bb + Enc(v) == Enc(encoded) else bb == Enc(encoded)
    {
      ghost var before, next := bb, v / 128;
      var b: Byte := v % 128;
      v := v / 128;
      if v != 0 { b := b + 128; }
      bb := bb + [b];
      assert v > 0 ==> before + ([b] + Enc(next)) == bb + Enc(v);
    }
  }

  function WriteLong(x: int): Data { Enc(Zig(x)) }

  /** The loop that readLong and readInt share: bits beyond the 64th are lost. */
  function ReadBits(d: Data): (r: Read<nat>)
    ensures r.Got? ==> |r.rest| < |d|
  {
    var k := Term(d);
    if k == |d| then Bad else Got(Val(d[..k + 1]) % TWO64, d[k + 1..])
  }

  function ReadLong(d: Data): (r: Read<int>)
    ensures r.Got? ==> |r.rest| < |d|
  {
    match ReadBits(d)
    case Bad => Bad
    case Got(u, rest) => Got(Zag(u), rest)
  }

  /** readInt keeps the low half of what is left of the 64 bits after the sign. */
  function LowHalf(u: nat): int {
    var low := Signed32(u / 2);
    if u % 2 == 0 then low else -low - 1
  }

  function ReadInt(d: Data): (r: Read<int>) {
    match ReadBits(d)
    case Bad => Bad
    case Got(u, rest) => Got(LowHalf(u), rest)
  }

  method Accumulate(d: Data) returns (r: Read<nat>)
    ensures r == ReadBits(d)
  {
    var i: nat, p: nat := 0, 1;
    var v: nat := 0;
    while true
      invariant i <= |d| && p == Pow128(i) && v < TWO64
      invariant v == Val(d[..i]) % TWO64
      invariant forall j :: 0 <= j < i ==> d[j] >= 128
      decreases |d| - i
    {
      if i == |d| {
        return Bad;
      }
      var b := d[i];
      assert d[..i + 1] == d[..i] + [b];
      ValSnoc(d[..i], b);
      ModAdd(Val(d[..i]), p * (b % 128));
      v := (v + p * (b % 128)) % TWO64;
      p := 128 * p;
      i := i + 1;
      if b < 128 {
        TermUnique(d, i - 1);
        return Got(v, d[i..]);
      }
    }
  }

  lemma ModAdd(a: nat, b: nat)
    ensures (a % TWO64 + b) % TWO64 == (a + b) % TWO64
  {
    assert a + b == TWO64 * (a / TWO64) + (a % TWO64 + b);
    ModShift(a % TWO64 + b, a / TWO64);
  }

  lemma ModShift(x: nat, q: nat)
    ensures (TWO64 * q + x) % TWO64 == x % TWO64
  {
    assert TWO64 * q + x == TWO64 * (q + x / TWO64) + x % TWO64;
  }

  lemma BitsRoundTrip(u: nat, rest: Data)
    requires u < TWO64
    ensures ReadBits(Enc(u) + rest) == Got(u, rest)
  {
    ReadBack(u, rest);
    SmallMod(u);
  }

  lemma SmallMod(u: nat)
    requires u < TWO64
    ensures u % TWO64 == u
  {
  }

  lemma LongRoundTrip(x: int, rest: Data)
    requires IsInt64(x)
    ensures ReadLong(WriteLong(x) + rest) == Got(x, rest)
  {
    ZigZag(x, 0);
    BitsRoundTrip(Zig(x), rest);
  }

  lemma LowHalfZig(x: int)
    requires IsInt32(x)
    ensures LowHalf(Zig(x)) == x
  {
  }

  lemma IntRoundTrip(x: int, rest: Data)
    requires IsInt32(x)
    ensures ReadInt(WriteLong(x) + rest) == Got(x, rest)
  {
    ZigZag(x, 0);
    BitsRoundTrip(Zig(x), rest);
    LowHalfZig(x);
  }

  // ---------------------------------------------------------------- strings

  function WriteString(s: Data): Data { WriteLong(|s|) + s }

  function ReadString(d: Data): (r: Read<Data>)
    ensures r.Got? ==> |r.rest| <= |d|
  {
    match ReadLong(d)
    case Bad => Bad
    case Got(n, r) => if n < 0 || n > MAX_STRING || n > |r| then Bad else Got(r[..n], r[n..])
  }

  /** A string is read back exactly when its length fits 31 bits; a longer one is refused. */
  lemma StringRoundTrip(s: Data, rest: Data)
    requires IsInt64(|s|)
    ensures ReadString(WriteString(s) + rest) == if |s| <= MAX_STRING then Got(s, rest) else Bad
  {
    assert WriteString(s) + rest == WriteLong(|s|) + (s + rest);
    LongRoundTrip(|s|, s + rest);
    assert (s + rest)[..|s|] == s && (s + rest)[|s|..] == rest;
  }

  // ------------------------------------------------------------------- maps

  /** What a value reader must not do: grow what is left. */
  ghost predicate Shrinking<V(!new)>(val: Data -> Read<V>) {
    forall d :: val(d).Got? ==> |val(d).rest| <= |d|
  }

  function ReadEntries<V>(val: Data -> Read<V>, n: nat, d: Data, m: map<Data, V>): Read<map<Data, V>>
    decreases n
  {
    if n == 0 then Got(m, d)
    else
      match ReadString(d)
      case Bad => Bad
      case Got(k, r) =>
        match val(r)
        case Bad => Bad
        case Got(v, q) => ReadEntries(val, n - 1, q, m[k := v])
  }

  lemma {:induction false} EntriesShrink<V(!new)>(val: Data -> Read<V>, n: nat, d: Data, m: map<Data, V>)
    requires Shrinking(val)
    ensures ReadEntries(val, n, d, m).Got? ==> |ReadEntries(val, n, d, m).rest| <= |d|
    decreases n
  {
    if n == 0 || !ReadString(d).Got? {
    } else {
      var k, r := ReadString(d).value, ReadString(d).rest;
      if val(r).Got? { EntriesShrink(val, n - 1, val(r).rest, m[k := val(r).value]); }
    }
  }

  /** The number of entries of a block whose count is negative, in 64 bits. */
  function Negated(n: int): nat
    requires n < 0
  {
    if n <= -TWO63 then 0 else -n
  }

  /** readMapString and readMapMapString: blocks of entries up to an empty block. */
  function ReadBlocks<V(!new)>(val: Data -> Read<V>, d: Data, m: map<Data, V>): (r: Read<map<Data, V>>)
    requires Shrinking(val)
    ensures r.Got? ==> |r.rest| <= |d|
    decreases |d|
  {
    match ReadLong(d)
    case Bad => Bad
    case Got(n, r) =>
      if n == 0 then Got(m, r)
      else
        var start := if n > 0 then Got(n, r) else ReadLong(r);
        if start.Bad? then Bad
        else
          var count := if n > 0 then n else Negated(n);
          EntriesShrink(val, count, start.rest, m);
          match ReadEntries(val, count, start.rest, m)
          case Bad => Bad
          case Got(more, q) => ReadBlocks(val, q, more)
  }

  function WriteEntries<V>(val: V -> Data, ps: Listing<V>): Data {
    if ps == [] then [] else WriteString(ps[0].0) + val(ps[0].1) + WriteEntries(val, ps[1..])
  }

  /** writeMapString and writeMapMapString: one block, and an empty one unless the map is empty. */
  function WriteMap<V>(val: V -> Data, ps: Listing<V>): Data {
    WriteLong(|ps|) + if ps == [] then [] else WriteEntries(val, ps) + WriteLong(0)
  }

  predicate Short(s: Data) { |s| <= MAX_STRING }

  /** Every key is short and every value is one that can be read back. */
  predicate AllFit<W>(fits: W -> bool, ps: Listing<W>) {
    forall i :: 0 <= i < |ps| ==> Short(ps[i].0) && fits(ps[i].1)
  }

  /** Reading a written value gives its meaning when it fits, and fails otherwise. */
  ghost predicate Inverse<V(!new), W>(read: Data -> Read<V>, write: W -> Data, mean: W -> V, fits: W -> bool, w: W) {
    forall x :: read(write(w) + x) == if fits(w) then Got(mean(w), x) else Bad
  }

  lemma {:induction false} EntriesRoundTrip<V(!new), W>(
    read: Data -> Read<V>, write: W -> Data, mean: W -> V, fits: W -> bool,
    ps: Listing<W>, rest: Data, m: map<Data, V>)
    requires forall i :: 0 <= i < |ps| ==> IsInt64(|ps[i].0|) && Inverse(read, write, mean, fits, ps[i].1)
    ensures
      ReadEntries(read, |ps|, WriteEntries(write, ps) + rest, m)
      == if AllFit(fits, ps) then Got(MapFrom(m, Meaning(mean, ps)), rest) else Bad
    decreases |ps|
  {
    if ps == [] {
      assert WriteEntries(write, ps) + rest == rest;
    } else {
      var k, w, more := ps[0].0, ps[0].1, WriteEntries(write, ps[1..]) + rest;
      assert WriteEntries(write, ps) + rest == WriteString(k) + (write(w) + more);
      StringRoundTrip(k, write(w) + more);
      assert Inverse(read, write, mean, fits, w);
      AllFitSplit(fits, ps);
      if Short(k) && fits(w) {
        EntriesRoundTrip(read, write, mean, fits, ps[1..], rest, m[k := mean(w)]);
        MeaningStep(mean, ps, m);
      }
    }
  }

  lemma AllFitSplit<W>(fits: W -> bool, ps: Listing<W>)
    requires ps != []
    ensures AllFit(fits, ps) <==> Short(ps[0].0) && fits(ps[0].1) && AllFit(fits, ps[1..])
  {
    assert forall i :: 0 < i < |ps| ==> ps[i] == ps[1..][i - 1];
  }

  /** A written map is read back exactly when all of it fits, in whatever order it was written. */
  lemma MapRoundTrip<V(!new), W>(
    read: Data -> Read<V>, write: W -> Data, mean: W -> V, fits: W -> bool, ps: Listing<W>, rest: Data)
    requires Shrinking(read) && IsInt64(|ps|)
    requires forall i :: 0 <= i < |ps| ==> IsInt64(|ps[i].0|) && Inverse(read, write, mean, fits, ps[i].1)
    ensures
      ReadBlocks(read, WriteMap(write, ps) + rest, map[])
      == if AllFit(fits, ps) then Got(MapFrom(map[], Meaning(mean, ps)), rest) else Bad
  {
    if ps == [] {
      assert WriteMap(write, ps) + rest == WriteLong(0) + rest;
      LongRoundTrip(0, rest);
    } else {
      var end := WriteLong(0) + rest;
      var d := WriteEntries(write, ps) + end;
      assert WriteMap(write, ps) + rest == WriteLong(|ps|) + d;
      LongRoundTrip(|ps|, d);
      EntriesRoundTrip(read, write, mean, fits, ps, end, map[]);
      LongRoundTrip(0, rest);
    }
  }

  // ----------------------------------------------------- loops over the maps

  lemma {:induction false} EntriesSnoc<V>(val: V -> Data, ps: Listing<V>, p: (Data, V))
    ensures WriteEntries(val, ps + [p]) == WriteEntries(val, ps) + (WriteString(p.0) + val(p.1))
  {
    if ps == [] {
      assert (ps + [p])[1..] == [];
    } else {
      assert (ps + [p])[1..] == ps[1..] + [p];
      EntriesSnoc(val, ps[1..], p);
    }
  }

  /** A map in some order, every entry once. */
  ghost predicate InnerListed(ps: Listing<Data>, m: map<Data, Data>) {
    MapFrom(map[], ps) == m && |ps| == |m| && DistinctKeys(ps)
  }

  /** writeMapString: the order in which a map is written is arbitrary, and every entry is written once. */
  method WriteMapString(m: map<Data, Data>) returns (bs: Data)
    ensures exists ps :: InnerListed(ps, m) && bs == WriteMap(WriteString, ps)
  {
    bs := [];
    ghost var ps: Listing<Data> := [];
    var left := m;
    IteratedFirst(Same, m);
    while left != map[]
      invariant Iterated(Same, m, left, ps) && bs == WriteEntries(WriteString, ps)
      decreases |left|
    {
      var k :| k in left;
      IteratedStep(Same, m, left, ps, k, m[k]);
      EntriesSnoc(WriteString, ps, (k, m[k]));
      ps := ps + [(k, m[k])];
      bs := bs + (WriteString(k) + WriteString(m[k]));
      left := left - {k};
    }
    IteratedLast(Same, m, ps);
    MeaningSame(ps);
    bs := WriteLong(|m|) + if |m| == 0 then [] else bs + WriteLong(0);
    assert InnerListed(ps, m) && bs == WriteMap(WriteString, ps);
  }

  function WriteInner(ps: Listing<Data>): Data { WriteMap(WriteString, ps) }

  ghost predicate OuterListed(qs: Listing<Listing<Data>>, m: map<Data, map<Data, Data>>) {
    && OuterMap(qs) == m && |qs| == |m| && DistinctKeys(qs)
    && forall i :: 0 <= i < |qs| ==> InnerListed(qs[i].1, InnerMap(qs[i].1))
  }

  lemma OuterListedSnoc(qs: Listing<Listing<Data>>, k: Data, ps: Listing<Data>)
    requires forall i :: 0 <= i < |qs| ==> InnerListed(qs[i].1, InnerMap(qs[i].1))
    requires InnerListed(ps, InnerMap(ps))
    ensures
      var rs := qs + [(k, ps)];
      forall i :: 0 <= i < |rs| ==> InnerListed(rs[i].1, InnerMap(rs[i].1))
  {
  }

  method WriteMapMapString(m: map<Data, map<Data, Data>>) returns (bs: Data)
    ensures exists qs :: OuterListed(qs, m) && bs == WriteMap(WriteInner, qs)
  {
    bs := [];
    ghost var qs: Listing<Listing<Data>> := [];
    var left := m;
    IteratedFirst(InnerMap, m);
    while left != map[]
      invariant Iterated(InnerMap, m, left, qs) && bs == WriteEntries(WriteInner, qs)
      invariant forall i :: 0 <= i < |qs| ==> InnerListed(qs[i].1, InnerMap(qs[i].1))
      decreases |left|
    {
      var k :| k in left;
      var inner := WriteMapString(m[k]);
      ghost var ps :| InnerListed(ps, m[k]) && inner == WriteMap(WriteString, ps);
      IteratedStep(InnerMap, m, left, qs, k, ps);
      EntriesSnoc(WriteInner, qs, (k, ps));
      OuterListedSnoc(qs, k, ps);
      qs := qs + [(k, ps)];
      bs := bs + (WriteString(k) + inner);
      left := left - {k};
    }
    IteratedLast(InnerMap, m, qs);
    bs := WriteLong(|m|) + if |m| == 0 then [] else bs + WriteLong(0);
    assert OuterListed(qs, m) && bs == WriteMap(WriteInner, qs);
  }

  /** readMapString and readMapMapString, which differ in how they read a value. */
  method ReadMap<V(!new)>(val: Data -> Read<V>, d: Data) returns (r: Read<map<Data, V>>)
    requires Shrinking(val)
    ensures r == ReadBlocks(val, d, map[])
  {
    var m, rest := map[], d;
    while true
      invariant ReadBlocks(val, rest, m) == ReadBlocks(val, d, map[])
      decreases |rest|
    {
      var head := ReadLong(rest);
      if head.Bad? { return Bad; }
      var count, next := head.value, head.rest;
      if count == 0 { return Got(m, next); }
      if count < 0 {
        var size := ReadLong(next);
        if size.Bad? { return Bad; }
        count, next := Negated(count), size.rest;
      }
      EntriesShrink(val, count, next, m);
      var block := ReadBlock(val, count, next, m);
      if block.Bad? { return Bad; }
      m, rest := block.value, block.rest;
    }
  }

  method ReadBlock<V(!new)>(val: Data -> Read<V>, count: nat, d: Data, m: map<Data, V>)
    returns (r: Read<map<Data, V>>)
    ensures r == ReadEntries(val, count, d, m)
  {
    var acc, rest, i := m, d, 0;
    while i < count
      invariant i <= count
      invariant ReadEntries(val, count - i, rest, acc) == ReadEntries(val, count, d, m)
    {
      var key := ReadString(rest);
      if key.Bad? { return Bad; }
      var value := val(key.rest);
      if value.Bad? { return Bad; }
      acc, rest, i := acc[key.value := value.value], value.rest, i + 1;
    }
    return Got(acc, rest);
  }
}
