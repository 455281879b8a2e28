/** The four protobuf messages: what is written is read back (model/types.pb.go, utils/ulid.go). */
module Protobuf {
  import opened Bytes
  import opened Listings
  import opened Varint
  import opened Wire

  // -------------------------------------------------------------- map entries

  /** What a field of a map entry contributes. */
  datatype Part<V> = Key(key: Data) | Val(val: V) | Other

  /** How a field of a map entry is read when `left` bytes of the entry remain. */
  type PartReader<V> = (Data, int) -> Read<Part<V>>

  /**
    The loop over the fields of a map entry. It stops once `left` bytes are used up but
    looks for each field in all the data there is.
    */
  function EntryOf<V>(field: PartReader<V>, d: Data, left: int, key: Data, v: V): Option<(Data, V)>
    decreases |d|
  {
    if left <= 0 then Some((key, v))
    else
      match field(d, left)
      case Bad => None
      case Got(part, q) =>
        if |q| >= |d| then None
        else
          var k, w := if part.Key? then part.key else key, if part.Val? then part.val else v;
          EntryOf(field, q, left - (|d| - |q|), k, w)
  }

  /** One field of a map entry; the wire types are not examined. */
  function EntryField<V>(val: Data -> Option<V>, d: Data, left: int): Read<Part<V>> {
    match Uvar(d)
    case Bad => Bad
    case Got(tag, r) =>
      if FieldNumber(tag) == 1 then KeyField(r)
      else if FieldNumber(tag) == 2 then ValueField(val, r)
      else OtherField(d, left)
  }

  function KeyField<V>(d: Data): Read<Part<V>> {
    match Block(d)
    case Bad => Bad
    case Got(p, q) => Got(Key(p), q)
  }

  function ValueField<V>(val: Data -> Option<V>, d: Data): Read<Part<V>> {
    match Block(d)
    case Bad => Bad
    case Got(p, q) => if val(p).None? then Bad else Got(Val(val(p).value), q)
  }

  function OtherField<V>(d: Data, left: int): Read<Part<V>> {
    match Skip(d)
    case Bad => Bad
    case Got(_, q) => if |d| - |q| > left then Bad else Got(Other, q)
  }

  function EntryReader<V>(val: Data -> Option<V>): PartReader<V> {
    (d, left) => EntryField(val, d, left)
  }

  function PutKey(k: Data): Data { [10] + PutBlock(k) }

  function PutValue(p: Data): Data { [18] + PutBlock(p) }

  lemma KeyIsRead<V>(val: Data -> Option<V>, k: Data, x: Data, left: int)
    requires IsInt64(|k|)
    ensures EntryField(val, PutKey(k) + x, left) == Got(Key(k), x)
  {
    assert PutKey(k) + x == [10] + (PutBlock(k) + x);
    TagRoundTrip(10, 1, PutBlock(k) + x);
    BlockRoundTrip(k, x);
  }

  lemma ValueIsRead<V>(val: Data -> Option<V>, p: Data, w: V, x: Data, left: int)
    requires IsInt64(|p|) && val(p) == Some(w)
    ensures EntryField(val, PutValue(p) + x, left) == Got(Val(w), x)
  {
    assert PutValue(p) + x == [18] + (PutBlock(p) + x);
    TagRoundTrip(18, 2, PutBlock(p) + x);
    BlockRoundTrip(p, x);
  }

  lemma JustKey<V>(field: PartReader<V>, a: Data, x: Data, k: Data, v: V)
    requires a != [] && field(a + x, |a|) == Got(Key(k), x)
    ensures EntryOf(field, a + x, |a|, [], v) == Some((k, v))
  {
  }

  lemma KeyAndValue<V>(field: PartReader<V>, a: Data, b: Data, x: Data, k: Data, w: V, v: V)
    requires a != [] && b != []
    requires field(a + b + x, |a + b|) == Got(Key(k), b + x) && field(b + x, |b|) == Got(Val(w), x)
    ensures EntryOf(field, a + b + x, |a + b|, [], v) == Some((k, w))
  {
    assert EntryOf(field, b + x, |b|, k, v) == Some((k, w));
  }

  lemma KeyRoundTrip<V>(val: Data -> Option<V>, k: Data, x: Data, v: V)
    requires IsInt64(|k|)
    ensures EntryOf(EntryReader(val), PutKey(k) + x, |PutKey(k)|, [], v) == Some((k, v))
  {
    KeyIsRead(val, k, x, |PutKey(k)|);
    JustKey(EntryReader(val), PutKey(k), x, k, v);
  }

  lemma EntryRoundTrip<V>(val: Data -> Option<V>, k: Data, p: Data, w: V, x: Data, v: V)
    requires IsInt64(|k|) && IsInt64(|p|) && val(p) == Some(w)
    ensures
      EntryOf(EntryReader(val), PutKey(k) + PutValue(p) + x, |PutKey(k) + PutValue(p)|, [], v)
      == Some((k, w))
  {
    KeyIsRead(val, k, PutValue(p) + x, |PutKey(k) + PutValue(p)|);
    ValueIsRead(val, p, w, x, |PutValue(p)|);
    EntryIsRead(EntryReader(val), PutKey(k), PutValue(p), x, k, w, v);
  }

  lemma EntryIsRead<V>(field: PartReader<V>, a: Data, b: Data, x: Data, k: Data, w: V, v: V)
    requires a != [] && b != []
    requires field(a + (b + x), |a + b|) == Got(Key(k), b + x) && field(b + x, |b|) == Got(Val(w), x)
    ensures EntryOf(field, a + b + x, |a + b|, [], v) == Some((k, w))
  {
    Assoc(a, b, x);
    KeyAndValue(field, a, b, x, k, w, v);
  }

  // ------------------------------------------------------------ the two maps

  function OneField(num: int): Kind { if num == 1 then Bytes else Unknown }

  function Keep(p: Data): Option<Data> { Some(p) }

  function ApplyInner(m: map<Data, Data>, num: int, v: Value): Option<map<Data, Data>> {
    match v
    case Num(_) => None
    case Span(from, n) =>
      match EntryOf(EntryReader(Keep), from, n, [], [])
      case None => None
      case Some((k, w)) => Some(m[k := w])
  }

  const INNER: Schema<map<Data, Data>> := Schema(OneField, ApplyInner)

  function UnmarshalInner(p: Data): Option<map<Data, Data>> { Unmarshal(INNER, map[], p) }

  /** The value of an outer map may be nil. */
  type Inner = Option<map<Data, Data>>

  function InnerValue(p: Data): Option<Inner> {
    match UnmarshalInner(p)
    case None => None
    case Some(m) => Some(Some(m))
  }

  function ApplyOuter(m: map<Data, Inner>, num: int, v: Value): Option<map<Data, Inner>> {
    match v
    case Num(_) => None
    case Span(from, n) =>
      match EntryOf(EntryReader(InnerValue), from, n, [], None)
      case None => None
      case Some((k, w)) => Some(m[k := w])
  }

  const OUTER: Schema<map<Data, Inner>> := Schema(OneField, ApplyOuter)

  // -------------------------------------------------------- writing the maps

  type InnerListing = Listing<Data>
  type OuterListing = Listing<Option<InnerListing>>

  function InnerEntry(p: (Data, Data)): Data { PutKey(p.0) + PutValue(p.1) }

  function InnerField(p: (Data, Data)): Data { PutKey(InnerEntry(p)) }

  function MarshalInner(ps: InnerListing): Data { Concat(InnerField, ps) }

  function OuterEntry(q: (Data, Option<InnerListing>)): Data {
    PutKey(q.0) + if q.1.None? then [] else PutValue(MarshalInner(q.1.value))
  }

  function OuterField(q: (Data, Option<InnerListing>)): Data { PutKey(OuterEntry(q)) }

  function MarshalOuter(qs: OuterListing): Data { Concat(OuterField, qs) }

  function InnerMeant(v: Option<InnerListing>): Inner {
    if v.None? then None else Some(MapFrom(map[], v.value))
  }

  /** No string in memory is longer than 63 bits can count. */
  predicate InnerSized(ps: InnerListing) {
    forall i :: 0 <= i < |ps| ==>
      IsInt64(|ps[i].0|) && IsInt64(|ps[i].1|) && IsInt64(|InnerEntry(ps[i])|)
  }

  predicate OuterSized(qs: OuterListing) {
    forall i :: 0 <= i < |qs| ==> OuterEntrySized(qs[i])
  }

  lemma {:induction false} InnerFrom(ps: InnerListing, m: map<Data, Data>)
    requires InnerSized(ps)
    ensures Unmarshal(INNER, m, MarshalInner(ps)) == Some(MapFrom(m, ps))
    decreases |ps|
  {
    if ps == [] {
    } else {
      var p, next := ps[0], m[ps[0].0 := ps[0].1];
      var i := TextItem(1, InnerEntry(p), true);
      forall x: Data ensures ApplyInner(m, 1, Span(i.text + x, |i.text|)) == Some(next) {
        EntryRoundTrip(Keep, p.0, p.1, p.1, x, []);
      }
      ItemStep(INNER, m, i, next, MarshalInner(ps[1..]));
      InnerFrom(ps[1..], next);
    }
  }

  predicate OuterEntrySized(q: (Data, Option<InnerListing>)) {
    && IsInt64(|q.0|) && IsInt64(|OuterEntry(q)|)
    && (q.1.Some? ==> InnerSized(q.1.value) && IsInt64(|MarshalInner(q.1.value)|))
  }

  lemma OuterApplies(q: (Data, Option<InnerListing>), m: map<Data, Inner>, x: Data)
    requires OuterEntrySized(q)
    ensures
      var e := OuterEntry(q);
      ApplyOuter(m, 1, Span(e + x, |e|)) == Some(m[q.0 := InnerMeant(q.1)])
  {
    if q.1.None? {
      assert OuterEntry(q) == PutKey(q.0);
      KeyRoundTrip(InnerValue, q.0, x, None);
    } else {
      InnerFrom(q.1.value, map[]);
      EntryRoundTrip(InnerValue, q.0, MarshalInner(q.1.value), InnerMeant(q.1), x, None);
    }
  }

  lemma {:induction false} OuterFrom(qs: OuterListing, m: map<Data, Inner>)
    requires OuterSized(qs)
    ensures Unmarshal(OUTER, m, MarshalOuter(qs)) == Some(MapFrom(m, Meaning(InnerMeant, qs)))
    decreases |qs|
  {
    if qs == [] {
    } else {
      var k, v := qs[0].0, qs[0].1;
      var next := m[k := InnerMeant(v)];
      var i := TextItem(1, OuterEntry(qs[0]), true);
      forall x: Data ensures ApplyOuter(m, 1, Span(i.text + x, |i.text|)) == Some(next) {
        OuterApplies(qs[0], m, x);
      }
      ItemStep(OUTER, m, i, next, MarshalOuter(qs[1..]));
      OuterFrom(qs[1..], next);
      assert Meaning(InnerMeant, qs)[1..] == Meaning(InnerMeant, qs[1..]);
    }
  }
}
