/** The protobuf wire format: tagged fields, read in a loop (model/types.pb.go). */
module Wire {
  import opened Bytes
  import opened Listings
  import opened Varint

  // ----------------------------------------------------------- integers

  /** The 64 bits a signed number is carried in. */
  function Bits(x: int): (u: nat)
    ensures u < TWO64
  {
    x % TWO64
  }

  /** Negative numbers of 32 bits travel as ten bytes and come back. */
  lemma SignRoundTrip(x: int)
    ensures IsInt64(x) ==> Signed64(Bits(x)) == x
    ensures IsInt32(x) ==> Signed32(Bits(x)) == x
    ensures IsInt64(x) && x < 0 ==> |Enc(Bits(x))| == 10
    ensures IsInt64(x) ==> (Bits(x) == 0 <==> x == 0)
  {
    if IsInt64(x) && x < 0 {
      assert Bits(x) == x + TWO64;
      Pow128Nine();
      EncLength(Bits(x), 9);
      Enc64(Bits(x));
    }
  }

  /** A varint of at most ten bytes; bits beyond the 64th are lost. */
  function Uvar(d: Data): (r: Read<nat>)
    ensures r.Got? ==> |r.rest| < |d| && r.value < TWO64
  {
    var k := Term(d);
    if k < |d| && k <= 9 then Got(Val(d[..k + 1]) % TWO64, d[k + 1..]) else Bad
  }

  /** The reading loop: fails on the eleventh byte or at the end of the data. */
  method DecodeVarint(d: Data) returns (r: Read<nat>)
    ensures r == Uvar(d)
  {
    var v: nat, p: nat, i: nat := 0, 1, 0;
    while true
      invariant i <= |d| && i <= 10 && p == Pow128(i)
      invariant v == Val(d[..i])
      invariant forall j :: 0 <= j < i ==> d[j] >= 128
      decreases |d| - i
    {
      if i >= 10 { return Bad; }
      if i >= |d| { return Bad; }
      var b := d[i];
      assert d[..i + 1] == d[..i] + [b];
      ValSnoc(d[..i], b);
      v, p, i := v + p * (b % 128), 128 * p, i + 1;
      if b < 128 {
        TermUnique(d, i - 1);
        return Got(v % TWO64, d[i..]);
      }
    }
  }

  lemma UvarIs(d: Data, k: nat)
    requires 0 < k <= 10 && k <= |d| && Term(d) == k - 1
    ensures Uvar(d) == Got(Val(d[..k]) % TWO64, d[k..])
  {
  }

  lemma UvarRoundTrip(u: nat, rest: Data)
    requires u < TWO64
    ensures Uvar(Enc(u) + rest) == Got(u, rest)
  {
    ReadBack(u, rest);
    Enc64(u);
    UvarIs(Enc(u) + rest, |Enc(u)|);
  }

  /** sovTypes: the number of bytes of a varint. */
  method Sov(x: nat) returns (n: nat)
    requires x < TWO64
    ensures n == |Enc(x)|
  {
    n := 0;
    var v: nat := x;
    while true
      invariant n + |Enc(v)| == |Enc(x)|
      decreases v
    {
      n := n + 1;
      if v < 128 { return; }
      v := v / 128;
    }
  }

  // -------------------------------------------------------------- blocks

  /** A length and as many bytes; a length with its top bit set is negative. */
  function Block(d: Data): (r: Read<Data>)
    ensures r.Got? ==> |r.rest| < |d|
  {
    var n :- Uvar(d);
    if n.0 >= TWO63 || n.0 > |n.1| then Bad else Got(n.1[..n.0], n.1[n.0..])
  }

  function PutBlock(p: Data): Data { Enc(|p|) + p }

  lemma BlockRoundTrip(p: Data, rest: Data)
    requires IsInt64(|p|)
    ensures Block(PutBlock(p) + rest) == Got(p, rest)
  {
    assert PutBlock(p) + rest == Enc(|p|) + (p + rest);
    UvarRoundTrip(|p|, p + rest);
    assert (p + rest)[..|p|] == p && (p + rest)[|p|..] == rest;
  }

  /** skipTypes: one field of any wire type, groups included. */
  function Skip(d: Data): (r: Read<()>)
    ensures r.Got? ==> |r.rest| < |d|
    decreases |d|, 0
  {
    var tag :- Uvar(d);
    var r := tag.1;
    match tag.0 % 8
    case 0 => (var v :- Uvar(r); Got((), v.1))
    case 1 => if |r| < 8 then Bad else Got((), r[8..])
    case 2 => (var b :- Block(r); Got((), b.1))
    case 3 => SkipGroup(r)
    case 4 => Got((), r)
    case 5 => if |r| < 4 then Bad else Got((), r[4..])
    case _ => Bad
  }

  function SkipGroup(d: Data): (r: Read<()>)
    ensures r.Got? ==> |r.rest| < |d|
    decreases |d|, 1
  {
    var tag :- Uvar(d);
    if tag.0 % 8 == 4 then Got((), tag.1)
    else
      var inner :- Skip(d);
      SkipGroup(inner.1)
  }

  // -------------------------------------------------------------- fields

  /** What a schema says of a field number. */
  datatype Kind = Number | Bytes | Unknown

  /** What a field carries: a number, or n bytes at the front of what is left. */
  datatype Value = Num(number: nat) | Span(from: Data, n: nat)

  /** A message type: the kinds of its fields and how a field changes a message. */
  datatype Schema<!M> = Schema(kind: int -> Kind, apply: (M, int, Value) -> Option<M>)

  function FieldNumber(wire: nat): int { Signed32(wire / 8) }

  /** Unmarshal: fields are applied one after the other until the data is used up. */
  function Unmarshal<M>(s: Schema<M>, m: M, d: Data): Option<M>
    decreases |d|
  {
    if d == [] then Some(m)
    else
      match Field(s, m, d)
      case Bad => None
      case Got(next, rest) => Unmarshal(s, next, rest)
  }

  /** One field. */
  function Field<M>(s: Schema<M>, m: M, d: Data): (r: Read<M>)
    ensures r.Got? ==> |r.rest| < |d|
  {
    var tag :- Uvar(d);
    var num := FieldNumber(tag.0);
    if tag.0 % 8 == 4 || num <= 0 then Bad
    else
      match s.kind(num)
      case Number => if tag.0 % 8 != 0 then Bad else NumberField(s, m, num, tag.1)
      case Bytes => if tag.0 % 8 != 2 then Bad else BytesField(s, m, num, tag.1)
      case Unknown => (var skipped :- Skip(d); Got(m, skipped.1))
  }

  function NumberField<M>(s: Schema<M>, m: M, num: int, d: Data): (r: Read<M>)
    ensures r.Got? ==> |r.rest| < |d|
  {
    var v :- Uvar(d);
    match s.apply(m, num, Num(v.0))
    case None => Bad
    case Some(next) => Got(next, v.1)
  }

  function BytesField<M>(s: Schema<M>, m: M, num: int, d: Data): (r: Read<M>)
    ensures r.Got? ==> |r.rest| < |d|
  {
    var b :- Block(d);
    match s.apply(m, num, Span(b.0 + b.1, |b.0|))
    case None => Bad
    case Some(next) => Got(next, b.1)
  }

  /** The loop of Unmarshal. */
  method UnmarshalLoop<M>(s: Schema<M>, m: M, d: Data) returns (r: Option<M>)
    ensures r == Unmarshal(s, m, d)
  {
    var acc, rest := m, d;
    while rest != []
      invariant Unmarshal(s, acc, rest) == Unmarshal(s, m, d)
      decreases |rest|
    {
      var f := Field(s, acc, rest);
      if f.Bad? { return None; }
      acc, rest := f.value, f.rest;
    }
    return Some(acc);
  }

  // ------------------------------------------------------- written fields

  /** A field as it is written: numbers and strings are left out when they are zero or empty. */
  datatype AnyItem = NumItem(num: nat, number: nat) | TextItem(num: nat, text: Data, always: bool)

  predicate Omitted(i: AnyItem) {
    match i
    case NumItem(_, v) => v == 0
    case TextItem(_, p, always) => p == [] && !always
  }

  /** Field numbers of one byte, numbers of 64 bits, lengths of 63. */
  predicate Writable(i: AnyItem) {
    1 <= i.num <= 15 && if i.NumItem? then i.number < TWO64 else IsInt64(|i.text|)
  }

  type Item = i: AnyItem | Writable(i) witness NumItem(1, 0)

  function Encode(i: Item): Data {
    if Omitted(i) then []
    else
      match i
      case NumItem(num, v) => [8 * num] + Enc(v)
      case TextItem(num, p, _) => [8 * num + 2] + PutBlock(p)
  }

  function EncodeAll(items: seq<Item>): Data { Concat(Encode, items) }

  /** Applying a field turns m into next, whatever follows the field. */
  ghost predicate Applies<M>(s: Schema<M>, m: M, i: Item, next: M) {
    if Omitted(i) then next == m
    else
      match i
      case NumItem(num, v) => s.kind(num) == Number && s.apply(m, num, Num(v)) == Some(next)
      case TextItem(num, p, _) =>
        s.kind(num) == Bytes && forall x: Data :: s.apply(m, num, Span(p + x, |p|)) == Some(next)
  }

  lemma TagRoundTrip(tag: Byte, num: nat, rest: Data)
    requires tag < 128 && num == tag / 8
    ensures Uvar([tag] + rest) == Got(tag as nat, rest) && FieldNumber(tag) == num
  {
    assert Enc(tag) == [tag];
    UvarRoundTrip(tag, rest);
  }

  lemma NumShape(i: Item, rest: Data)
    requires i.NumItem? && !Omitted(i)
    ensures Encode(i) + rest == [8 * i.num] + (Enc(i.number) + rest) && Encode(i) + rest != []
  {
    Assoc([8 * i.num], Enc(i.number), rest);
  }

  lemma TextShape(i: Item, rest: Data)
    requires i.TextItem? && !Omitted(i)
    ensures Encode(i) + rest == [8 * i.num + 2] + (PutBlock(i.text) + rest) && Encode(i) + rest != []
  {
    Assoc([8 * i.num + 2], PutBlock(i.text), rest);
  }

  lemma NumStep<M>(s: Schema<M>, m: M, i: Item, next: M, rest: Data)
    requires i.NumItem? && Applies(s, m, i, next) && !Omitted(i)
    ensures Field(s, m, Encode(i) + rest) == Got(next, rest)
  {
    var r := Enc(i.number) + rest;
    NumShape(i, rest);
    TagRoundTrip(8 * i.num, i.num, r);
    UvarRoundTrip(i.number, rest);
  }

  lemma TextStep<M>(s: Schema<M>, m: M, i: Item, next: M, rest: Data)
    requires i.TextItem? && Applies(s, m, i, next) && !Omitted(i)
    ensures Field(s, m, Encode(i) + rest) == Got(next, rest)
  {
    var r := PutBlock(i.text) + rest;
    TextShape(i, rest);
    TagRoundTrip(8 * i.num + 2, i.num, r);
    BlockRoundTrip(i.text, rest);
    assert s.apply(m, i.num, Span(i.text + rest, |i.text|)) == Some(next);
  }

  lemma UnmarshalStep<M>(s: Schema<M>, m: M, d: Data, next: M, rest: Data)
    requires d != [] && Field(s, m, d) == Got(next, rest)
    ensures Unmarshal(s, m, d) == Unmarshal(s, next, rest)
  {
  }

  /** A written field is read as one step of the loop. */
  lemma ItemStep<M>(s: Schema<M>, m: M, i: Item, next: M, rest: Data)
    requires Applies(s, m, i, next)
    ensures Unmarshal(s, m, Encode(i) + rest) == Unmarshal(s, next, rest)
  {
    if Omitted(i) {
      assert Encode(i) + rest == rest;
    } else if i.NumItem? {
      NumShape(i, rest);
      NumStep(s, m, i, next, rest);
      UnmarshalStep(s, m, Encode(i) + rest, next, rest);
    } else {
      TextShape(i, rest);
      TextStep(s, m, i, next, rest);
      UnmarshalStep(s, m, Encode(i) + rest, next, rest);
    }
  }

  /** Written fields that lead from one message to the next lead the reader the same way. */
  lemma {:induction false} ItemsRoundTrip<M>(s: Schema<M>, items: seq<Item>, ms: seq<M>, rest: Data)
    requires |ms| == |items| + 1
    requires forall i :: 0 <= i < |items| ==> Applies(s, ms[i], items[i], ms[i + 1])
    ensures Unmarshal(s, ms[0], EncodeAll(items) + rest) == Unmarshal(s, ms[|items|], rest)
    decreases |items|
  {
    if items == [] {
      assert EncodeAll(items) + rest == rest;
    } else {
      var more := EncodeAll(items[1..]) + rest;
      assert EncodeAll(items) + rest == Encode(items[0]) + more;
      ItemStep(s, ms[0], items[0], ms[1], more);
      var tail := ms[1..];
      forall i | 0 <= i < |items| - 1
        ensures Applies(s, tail[i], items[1..][i], tail[i + 1])
      {
        assert items[1..][i] == items[i + 1] && tail[i + 1] == ms[i + 2];
      }
      ItemsRoundTrip(s, items[1..], ms[1..], rest);
    }
  }

  lemma SkipNumber(num: nat, u: nat, rest: Data)
    requires 1 <= num <= 15 && u < TWO64
    ensures Skip([8 * num] + (Enc(u) + rest)) == Got((), rest)
  {
    TagRoundTrip(8 * num, num, Enc(u) + rest);
    UvarRoundTrip(u, rest);
  }

  lemma SkipText(num: nat, p: Data, rest: Data)
    requires 1 <= num <= 15 && IsInt64(|p|)
    ensures Skip([8 * num + 2] + (PutBlock(p) + rest)) == Got((), rest)
  {
    TagRoundTrip(8 * num + 2, num, PutBlock(p) + rest);
    BlockRoundTrip(p, rest);
  }

  lemma FieldSkips<M>(s: Schema<M>, m: M, d: Data, tag: nat, rest: Data)
    requires Uvar(d).Got? && Uvar(d).value == tag && tag % 8 != 4 && Skip(d) == Got((), rest)
    requires FieldNumber(tag) > 0 && s.kind(FieldNumber(tag)) == Unknown
    ensures Field(s, m, d) == Got(m, rest)
  {
  }

  lemma UnknownNumber<M>(s: Schema<M>, m: M, num: nat, u: nat, rest: Data)
    requires 1 <= num <= 15 && u < TWO64 && s.kind(num) == Unknown
    ensures Field(s, m, [8 * num] + (Enc(u) + rest)) == Got(m, rest)
  {
    var r := Enc(u) + rest;
    TagRoundTrip(8 * num, num, r);
    SkipNumber(num, u, rest);
    FieldSkips(s, m, [8 * num] + r, 8 * num, rest);
  }

  lemma UnknownText<M>(s: Schema<M>, m: M, num: nat, p: Data, rest: Data)
    requires 1 <= num <= 15 && IsInt64(|p|) && s.kind(num) == Unknown
    ensures Field(s, m, [8 * num + 2] + (PutBlock(p) + rest)) == Got(m, rest)
  {
    var r := PutBlock(p) + rest;
    TagRoundTrip(8 * num + 2, num, r);
    SkipText(num, p, rest);
    FieldSkips(s, m, [8 * num + 2] + r, 8 * num + 2, rest);
  }

  lemma UnknownField<M>(s: Schema<M>, m: M, i: Item, rest: Data)
    requires s.kind(i.num) == Unknown && !Omitted(i)
    ensures Encode(i) + rest != [] && Field(s, m, Encode(i) + rest) == Got(m, rest)
  {
    if i.NumItem? {
      NumShape(i, rest);
      UnknownNumber(s, m, i.num, i.number, rest);
    } else {
      TextShape(i, rest);
      UnknownText(s, m, i.num, i.text, rest);
    }
  }

  /** A field of an unknown number is skipped: readers accept messages with more fields than they know. */
  lemma UnknownIsSkipped<M>(s: Schema<M>, m: M, i: Item, rest: Data)
    requires s.kind(i.num) == Unknown
    ensures Unmarshal(s, m, Encode(i) + rest) == Unmarshal(s, m, rest)
  {
    if Omitted(i) {
      assert Encode(i) + rest == rest;
    } else {
      UnknownField(s, m, i, rest);
      UnmarshalStep(s, m, Encode(i) + rest, m, rest);
    }
  }
}
