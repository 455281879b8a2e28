/** MarshalTo and Size: filling a buffer that was made to measure (model/types.pb.go, utils/ulid.go). */
module ProtobufBuffer {
  import opened Bytes
  import opened Listings
  import opened Varint
  import opened Wire
  import opened Protobuf
  import opened ProtobufMessage

  /** The bytes of n bytes with their tag and length. */
  function Wrapped(n: nat): nat { 1 + |Enc(n)| + n }

  // -------------------------------------------------------- single fields

  /** encodeVarintTypes. */
  method EncodeVarint(a: array<Byte>, at: nat, v: nat) returns (i: nat)
    requires at + |Enc(v)| <= a.Length
    modifies a
    ensures i == at + |Enc(v)|
    ensures a[..i] == old(a[..at]) + Enc(v)
  {
    var u: nat := v;
    i := at;
    ghost var start := a[..at];
    assert a[..i] + Enc(u) == start + Enc(v);
    while u >= 128
      invariant i + |Enc(u)| == at + |Enc(v)|
      invariant a[..i] + Enc(u) == start + Enc(v)
      decreases u
    {
      ghost var done := a[..i];
      a[i] := u % 128 + 128;
      assert a[..i + 1] == done + [u % 128 + 128];
      assert done + ([u % 128 + 128] + Enc(u / 128)) == a[..i + 1] + Enc(u / 128);
      u, i := u / 128, i + 1;
    }
    ghost var done := a[..i];
    a[i] := u;
    i := i + 1;
    assert a[..i] == done + [u];
  }

  /** Go's copy into a slice that is long enough. */
  method Copy(a: array<Byte>, at: nat, s: Data) returns (i: nat)
    requires at + |s| <= a.Length
    modifies a
    ensures i == at + |s|
    ensures a[..i] == old(a[..at]) + s
  {
    for k := 0 to |s|
      invariant a[..at + k] == old(a[..at]) + s[..k]
    {
      a[at + k] := s[k];
      assert s[..k + 1] == s[..k] + [s[k]];
      assert a[..at + k + 1] == a[..at + k] + [s[k]];
    }
    i := at + |s|;
    assert s[..|s|] == s;
  }

  method PutByte(a: array<Byte>, at: nat, b: Byte) returns (i: nat)
    requires at < a.Length
    modifies a
    ensures i == at + 1
    ensures a[..i] == old(a[..at]) + [b]
  {
    a[at] := b;
    i := at + 1;
  }

  /** A tag and a number. */
  method PutTagged(a: array<Byte>, at: nat, tag: Byte, v: nat) returns (i: nat)
    requires at + 1 + |Enc(v)| <= a.Length
    modifies a
    ensures i == at + 1 + |Enc(v)|
    ensures a[..i] == old(a[..at]) + ([tag] + Enc(v))
  {
    i := PutByte(a, at, tag);
    i := EncodeVarint(a, i, v);
  }

  /** A tag, a length and as many bytes. */
  method PutSpan(a: array<Byte>, at: nat, tag: Byte, s: Data) returns (i: nat)
    requires at + Wrapped(|s|) <= a.Length
    modifies a
    ensures i == at + Wrapped(|s|)
    ensures a[..i] == old(a[..at]) + ([tag] + PutBlock(s))
  {
    i := PutTagged(a, at, tag, |s|);
    i := Copy(a, i, s);
    assert [tag] + Enc(|s|) + s == [tag] + PutBlock(s);
  }

  lemma NumberBytes(num: nat, x: int)
    requires 1 <= num <= 15 && IsInt64(x)
    ensures Encode(NumberItem(num, x)) == if x == 0 then [] else [8 * num] + Enc(Bits(x))
  {
    SignRoundTrip(x);
  }

  /** A number or string is left out when it is zero or empty. */
  method PutNumber(a: array<Byte>, at: nat, num: nat, x: int) returns (i: nat)
    requires 1 <= num <= 15 && IsInt64(x)
    requires at + |Encode(NumberItem(num, x))| <= a.Length
    modifies a
    ensures i == at + |Encode(NumberItem(num, x))|
    ensures a[..i] == old(a[..at]) + Encode(NumberItem(num, x))
  {
    NumberBytes(num, x);
    i := at;
    if x != 0 { i := PutTagged(a, i, 8 * num, Bits(x)); }
  }

  lemma TextBytes(num: nat, s: Data)
    requires 1 <= num <= 15 && IsInt64(|s|)
    ensures Encode(StringItem(num, s)) == if s == [] then [] else [8 * num + 2] + PutBlock(s)
    ensures |Encode(StringItem(num, s))| == if s == [] then 0 else Wrapped(|s|)
  {
  }

  method PutString(a: array<Byte>, at: nat, num: nat, s: Data) returns (i: nat)
    requires 1 <= num <= 15 && IsInt64(|s|)
    requires at + |Encode(StringItem(num, s))| <= a.Length
    modifies a
    ensures i == at + |Encode(StringItem(num, s))|
    ensures a[..i] == old(a[..at]) + Encode(StringItem(num, s))
  {
    TextBytes(num, s);
    i := at;
    if |s| > 0 { i := PutSpan(a, i, 8 * num + 2, s); }
  }

  // ----------------------------------------------------------- inner maps

  function InnerSize(k: Data, v: Data): nat { Wrapped(Wrapped(|k|) + Wrapped(|v|)) }

  lemma InnerSizeIs(k: Data, v: Data)
    ensures |InnerEntry((k, v))| == Wrapped(|k|) + Wrapped(|v|)
    ensures |InnerField((k, v))| == InnerSize(k, v)
  {
  }

  predicate InnerMapSized(m: map<Data, Data>) {
    forall k :: k in m ==> IsInt64(|k|) && IsInt64(|m[k]|) && IsInt64(Wrapped(|k|) + Wrapped(|m[k]|))
  }

  /** InnerProperties.Size: the same for every order of the map. */
  method SizeInner(m: map<Data, Data>) returns (n: nat)
    requires InnerMapSized(m)
    ensures n == Total(InnerSize, m)
  {
    n := 0;
    var left := m;
    while left != map[]
      invariant Within(left, m)
      invariant n + Total(InnerSize, left) == Total(InnerSize, m)
      decreases |left|
    {
      var k :| k in left;
      var v := left[k];
      NextEntry(InnerSize, m, left, k);
      var ks := Sov(|k|);
      var vs := Sov(|v|);
      var entry := 1 + |k| + ks + 1 + |v| + vs;
      var es := Sov(entry);
      n := n + entry + 1 + es;
      left := left - {k};
    }
  }

  method PutInnerEntry(a: array<Byte>, at: nat, k: Data, v: Data) returns (i: nat)
    requires IsInt64(|k|) && IsInt64(|v|) && IsInt64(Wrapped(|k|) + Wrapped(|v|))
    requires at + InnerSize(k, v) <= a.Length
    modifies a
    ensures i == at + InnerSize(k, v)
    ensures a[..i] == old(a[..at]) + InnerField((k, v))
  {
    InnerSizeIs(k, v);
    var ks := Sov(|k|);
    var vs := Sov(|v|);
    i := PutTagged(a, at, 10, 1 + |k| + ks + 1 + |v| + vs);
    i := PutSpan(a, i, 10, k);
    i := PutSpan(a, i, 18, v);
    EntryBytes(old(a[..at]), |InnerEntry((k, v))|, PutKey(k), PutValue(v));
  }

  /** The pieces of an entry put together. */
  lemma EntryBytes(start: Data, n: nat, x: Data, y: Data)
    requires n == |x + y|
    ensures start + ([10] + Enc(n)) + x + y == start + PutKey(x + y)
  {
    assert start + ([10] + Enc(n)) + x + y == start + ([10] + (Enc(n) + (x + y)));
  }

  lemma InnerSizedSnoc(ps: InnerListing, k: Data, v: Data)
    requires InnerSized(ps)
    requires IsInt64(|k|) && IsInt64(|v|) && IsInt64(Wrapped(|k|) + Wrapped(|v|))
    ensures InnerSized(ps + [(k, v)])
  {
    InnerSizeIs(k, v);
  }

  /** InnerProperties.MarshalTo fills exactly the bytes that Size announces, in whatever order it goes. */
  method MarshalInnerTo(m: map<Data, Data>, a: array<Byte>, at: nat) returns (i: nat, ghost ps: InnerListing)
    requires InnerMapSized(m) && at + Total(InnerSize, m) <= a.Length
    modifies a
    ensures i == at + Total(InnerSize, m)
    ensures a[..i] == old(a[..at]) + MarshalInner(ps)
    ensures MapFrom(map[], ps) == m && InnerSized(ps)
  {
    i, ps := at, [];
    ghost var start := a[..at];
    var left := m;
    DoneFirst(InnerField, InnerSize, Same, m, start);
    while left != map[]
      invariant i <= a.Length && Done(InnerField, InnerSize, Same, m, left, ps, start, a[..i])
      invariant InnerSized(ps)
      decreases |left|
    {
      var k :| k in left;
      DoneRoom(InnerField, InnerSize, Same, m, left, ps, start, a[..i], k);
      InnerSizeIs(k, m[k]);
      DoneStep(InnerField, InnerSize, Same, m, left, ps, start, a[..i], k, m[k]);
      i := PutInnerEntry(a, i, k, m[k]);
      InnerSizedSnoc(ps, k, m[k]);
      ps := ps + [(k, m[k])];
      left := left - {k};
    }
    DoneLast(InnerField, InnerSize, Same, m, ps, start, a[..i]);
    MeaningSame(ps);
  }

  // ----------------------------------------------------------- outer maps

  ghost function OuterSize(k: Data, v: Inner): nat {
    Wrapped(Wrapped(|k|) + if v.None? then 0 else Wrapped(Total(InnerSize, v.value)))
  }

  ghost predicate InnerValueSized(v: Inner) {
    v.Some? ==> InnerMapSized(v.value) && IsInt64(Total(InnerSize, v.value))
  }

  ghost predicate OuterMapSized(m: map<Data, Inner>) {
    forall k :: k in m ==> IsInt64(|k|) && IsInt64(OuterSize(k, m[k])) && InnerValueSized(m[k])
  }

  /** The size of an entry without its tag and length; nil values take no room. */
  method OuterEntrySize(k: Data, v: Inner) returns (n: nat)
    requires IsInt64(|k|) && IsInt64(OuterSize(k, v)) && InnerValueSized(v)
    ensures n == Wrapped(|k|) + if v.None? then 0 else Wrapped(Total(InnerSize, v.value))
  {
    var l := 0;
    if v.Some? {
      l := SizeInner(v.value);
      var ls := Sov(l);
      l := l + 1 + ls;
    }
    var ks := Sov(|k|);
    n := 1 + |k| + ks + l;
  }

  /** Properties.Size. */
  method SizeOuter(m: map<Data, Inner>) returns (n: nat)
    requires OuterMapSized(m)
    ensures n == Total(OuterSize, m)
  {
    n := 0;
    var left := m;
    while left != map[]
      invariant Within(left, m)
      invariant n + Total(OuterSize, left) == Total(OuterSize, m)
      decreases |left|
    {
      var k :| k in left;
      NextEntry(OuterSize, m, left, k);
      var entry := OuterEntrySize(k, left[k]);
      var es := Sov(entry);
      n := n + entry + 1 + es;
      left := left - {k};
    }
  }

  /** A value is written as its own message, after its own size. */
  method PutInner(a: array<Byte>, at: nat, m: map<Data, Data>) returns (i: nat, ghost ps: InnerListing)
    requires InnerMapSized(m) && IsInt64(Total(InnerSize, m)) && at + Wrapped(Total(InnerSize, m)) <= a.Length
    modifies a
    ensures i == at + Wrapped(Total(InnerSize, m))
    ensures a[..i] == old(a[..at]) + PutValue(MarshalInner(ps))
    ensures MapFrom(map[], ps) == m && InnerSized(ps) && |MarshalInner(ps)| == Total(InnerSize, m)
  {
    var n := SizeInner(m);
    i := PutTagged(a, at, 18, n);
    ghost var j := i;
    i, ps := MarshalInnerTo(m, a, i);
    ghost var b := MarshalInner(ps);
    assert |b| == i - j;
    assert old(a[..at]) + ([18] + Enc(n)) + b == old(a[..at]) + ([18] + (Enc(n) + b));
  }

  method PutOuterEntry(a: array<Byte>, at: nat, k: Data, v: Inner)
    returns (i: nat, ghost w: Option<InnerListing>)
    requires IsInt64(|k|) && IsInt64(OuterSize(k, v)) && InnerValueSized(v)
    requires at + OuterSize(k, v) <= a.Length
    modifies a
    ensures i == at + OuterSize(k, v)
    ensures a[..i] == old(a[..at]) + OuterField((k, w))
    ensures InnerMeant(w) == v && OuterEntrySized((k, w)) && |OuterField((k, w))| == OuterSize(k, v)
  {
    var n := OuterEntrySize(k, v);
    i := PutTagged(a, at, 10, n);
    i := PutSpan(a, i, 10, k);
    w := None;
    ghost var value: Data := [];
    if v.Some? {
      ghost var ps;
      i, ps := PutInner(a, i, v.value);
      w, value := Some(ps), PutValue(MarshalInner(ps));
    }
    OuterEntryIs(k, w, value);
    EntryBytes(old(a[..at]), n, PutKey(k), value);
  }

  lemma OuterEntryIs(k: Data, w: Option<InnerListing>, value: Data)
    requires value == if w.None? then [] else PutValue(MarshalInner(w.value))
    ensures OuterEntry((k, w)) == PutKey(k) + value
    ensures |PutKey(k)| == Wrapped(|k|)
    ensures w.Some? ==> |value| == Wrapped(|MarshalInner(w.value)|)
    ensures |OuterField((k, w))| == Wrapped(|PutKey(k) + value|)
  {
  }

  lemma OuterSizedSnoc(qs: OuterListing, q: (Data, Option<InnerListing>))
    requires OuterSized(qs) && OuterEntrySized(q)
    ensures OuterSized(qs + [q])
  {
  }

  /** Properties.MarshalTo, in whatever order it goes. */
  method MarshalOuterTo(m: map<Data, Inner>, a: array<Byte>, at: nat) returns (i: nat, ghost qs: OuterListing)
    requires OuterMapSized(m) && at + Total(OuterSize, m) <= a.Length
    modifies a
    ensures i == at + Total(OuterSize, m)
    ensures a[..i] == old(a[..at]) + MarshalOuter(qs)
    ensures MapFrom(map[], Meaning(InnerMeant, qs)) == m && OuterSized(qs)
  {
    i, qs := at, [];
    ghost var start := a[..at];
    var left := m;
    DoneFirst(OuterField, OuterSize, InnerMeant, m, start);
    while left != map[]
      invariant i <= a.Length && Done(OuterField, OuterSize, InnerMeant, m, left, qs, start, a[..i])
      invariant OuterSized(qs)
      decreases |left|
    {
      var k :| k in left;
      DoneRoom(OuterField, OuterSize, InnerMeant, m, left, qs, start, a[..i], k);
      ghost var before, w := a[..i], None;
      i, w := PutOuterEntry(a, i, k, m[k]);
      DoneStep(OuterField, OuterSize, InnerMeant, m, left, qs, start, before, k, w);
      OuterSizedSnoc(qs, (k, w));
      qs := qs + [(k, w)];
      left := left - {k};
    }
    DoneLast(OuterField, OuterSize, InnerMeant, m, qs, start, a[..i]);
  }

  // -------------------------------------------------------------- records

  function NumberSize(x: int): nat { if x == 0 then 0 else 1 + |Enc(Bits(x))| }

  function StringSize(s: Data): nat { if s == [] then 0 else Wrapped(|s|) }

  ghost function SyslogSize(m: SyslogMessage<Properties>): nat {
    NumberSize(m.priority) + NumberSize(m.facility) + NumberSize(m.severity) + NumberSize(m.version) +
    NumberSize(m.timeReported) + NumberSize(m.timeGenerated) +
    StringSize(m.hostName) + StringSize(m.appName) + StringSize(m.procId) + StringSize(m.msgId) +
    StringSize(m.structured) + StringSize(m.message) + Wrapped(Total(OuterSize, m.properties))
  }

  method SizeNumber(x: int) returns (n: nat)
    requires IsInt64(x)
    ensures n == NumberSize(x)
  {
    n := 0;
    if x != 0 {
      n := Sov(Bits(x));
      n := n + 1;
    }
  }

  method SizeString(s: Data) returns (n: nat)
    requires IsInt64(|s|)
    ensures n == StringSize(s)
  {
    n := 0;
    if |s| > 0 {
      n := Sov(|s|);
      n := n + 1 + |s|;
    }
  }

  ghost predicate SyslogMeasurable(m: SyslogMessage<Properties>) {
    && IsInt32(m.priority) && IsInt32(m.facility) && IsInt32(m.severity) && IsInt32(m.version)
    && IsInt64(m.timeReported) && IsInt64(m.timeGenerated)
    && IsInt64(|m.hostName|) && IsInt64(|m.appName|) && IsInt64(|m.procId|)
    && IsInt64(|m.msgId|) && IsInt64(|m.structured|) && IsInt64(|m.message|)
    && OuterMapSized(m.properties) && IsInt64(SyslogSize(m))
  }

  /** SyslogMessage.Size. */
  method SizeSyslog(m: SyslogMessage<Properties>) returns (n: nat)
    requires SyslogMeasurable(m)
    ensures n == SyslogSize(m)
  {
    n := SizeNumber(m.priority);
    var l := SizeNumber(m.facility);
    n := n + l;
    l := SizeNumber(m.severity);
    n := n + l;
    l := SizeNumber(m.version);
    n := n + l;
    l := SizeNumber(m.timeReported);
    n := n + l;
    l := SizeNumber(m.timeGenerated);
    n := n + l;
    l := SizeString(m.hostName);
    n := n + l;
    l := SizeString(m.appName);
    n := n + l;
    l := SizeString(m.procId);
    n := n + l;
    l := SizeString(m.msgId);
    n := n + l;
    l := SizeString(m.structured);
    n := n + l;
    l := SizeString(m.message);
    n := n + l;
    l := SizeOuter(m.properties);
    var s := Sov(l);
    n := n + 1 + l + s;
  }

  lemma NumberSizeIs(num: nat, x: int)
    requires 1 <= num <= 15 && IsInt64(x)
    ensures |Encode(NumberItem(num, x))| == NumberSize(x)
  {
    NumberBytes(num, x);
  }

  method FillNumber(a: array<Byte>, at: nat, num: nat, x: int) returns (i: nat)
    requires 1 <= num <= 15 && IsInt64(x) && at + NumberSize(x) <= a.Length
    modifies a
    ensures i == at + NumberSize(x)
    ensures a[..i] == old(a[..at]) + Encode(NumberItem(num, x))
  {
    NumberSizeIs(num, x);
    i := PutNumber(a, at, num, x);
  }

  method FillString(a: array<Byte>, at: nat, num: nat, s: Data) returns (i: nat)
    requires 1 <= num <= 15 && IsInt64(|s|) && at + StringSize(s) <= a.Length
    modifies a
    ensures i == at + StringSize(s)
    ensures a[..i] == old(a[..at]) + Encode(StringItem(num, s))
  {
    TextBytes(num, s);
    i := PutString(a, at, num, s);
  }

  method FillSyslogNumbers(m: SyslogMessage<Properties>, a: array<Byte>, at: nat) returns (i: nat)
    requires SyslogMeasurable(m) && at + SyslogSize(m) <= a.Length
    modifies a
    ensures
      i == at + NumberSize(m.priority) + NumberSize(m.facility) + NumberSize(m.severity) +
      NumberSize(m.version) + NumberSize(m.timeReported) + NumberSize(m.timeGenerated)
    ensures
      a[..i] == old(a[..at]) +
      Encode(NumberItem(1, m.priority)) + Encode(NumberItem(2, m.facility)) +
      Encode(NumberItem(3, m.severity)) + Encode(NumberItem(4, m.version)) +
      Encode(NumberItem(5, m.timeReported)) + Encode(NumberItem(6, m.timeGenerated))
  {
    i := FillNumber(a, at, 1, m.priority);
    i := FillNumber(a, i, 2, m.facility);
    i := FillNumber(a, i, 3, m.severity);
    i := FillNumber(a, i, 4, m.version);
    i := FillNumber(a, i, 5, m.timeReported);
    i := FillNumber(a, i, 6, m.timeGenerated);
  }

  method FillSyslogStrings(m: SyslogMessage<Properties>, a: array<Byte>, at: nat) returns (i: nat)
    requires SyslogMeasurable(m)
    requires
      at + StringSize(m.hostName) + StringSize(m.appName) + StringSize(m.procId) +
      StringSize(m.msgId) + StringSize(m.structured) + StringSize(m.message) <= a.Length
    modifies a
    ensures
      i == at + StringSize(m.hostName) + StringSize(m.appName) + StringSize(m.procId) +
      StringSize(m.msgId) + StringSize(m.structured) + StringSize(m.message)
    ensures
      a[..i] == old(a[..at]) +
      Encode(StringItem(7, m.hostName)) + Encode(StringItem(8, m.appName)) +
      Encode(StringItem(9, m.procId)) + Encode(StringItem(10, m.msgId)) +
      Encode(StringItem(11, m.structured)) + Encode(StringItem(12, m.message))
  {
    i := FillString(a, at, 7, m.hostName);
    i := FillString(a, i, 8, m.appName);
    i := FillString(a, i, 9, m.procId);
    i := FillString(a, i, 10, m.msgId);
    i := FillString(a, i, 11, m.structured);
    i := FillString(a, i, 12, m.message);
  }

  /** The properties are written as their own message, after their own size. */
  method FillProperties(m: Properties, a: array<Byte>, at: nat) returns (i: nat, ghost qs: OuterListing)
    requires OuterMapSized(m) && IsInt64(Total(OuterSize, m))
    requires at + Wrapped(Total(OuterSize, m)) <= a.Length
    modifies a
    ensures i == at + Wrapped(Total(OuterSize, m))
    ensures MapFrom(map[], Meaning(InnerMeant, qs)) == m && OuterSized(qs)
    ensures IsInt64(|MarshalOuter(qs)|)
    ensures a[..i] == old(a[..at]) + Encode(SpanItem(13, MarshalOuter(qs)))
  {
    var n := SizeOuter(m);
    i := PutTagged(a, at, 106, n);
    ghost var j := i;
    i, qs := MarshalOuterTo(m, a, i);
    ghost var b := MarshalOuter(qs);
    assert |b| == i - j == n;
    SpanBytes(old(a[..at]), 106, n, b);
  }

  lemma SpanBytes(start: Data, tag: Byte, n: nat, b: Data)
    requires n == |b|
    ensures start + ([tag] + Enc(n)) + b == start + ([tag] + PutBlock(b))
  {
    assert start + ([tag] + Enc(n)) + b == start + ([tag] + (Enc(n) + b));
  }

  /** One more thing after the others. */
  lemma ConcatNext<T>(enc: T -> Data, start: Data, now: Data, xs: seq<T>, x: T)
    requires now == start + Concat(enc, xs)
    ensures now + enc(x) == start + Concat(enc, xs + [x])
  {
    ConcatSnoc(enc, xs, x);
    assert start + Concat(enc, xs) + enc(x) == start + (Concat(enc, xs) + enc(x));
  }

  lemma ConcatSix<T>(enc: T -> Data, start: Data, now: Data, xs: seq<T>, a: T, b: T, c: T, d: T, e: T, f: T)
    requires now == start + Concat(enc, xs)
    ensures
      now + enc(a) + enc(b) + enc(c) + enc(d) + enc(e) + enc(f)
      == start + Concat(enc, xs + [a, b, c, d, e, f])
  {
    ConcatNext(enc, start, now, xs, a);
    ConcatNext(enc, start, now + enc(a), xs + [a], b);
    var x2, n2 := xs + [a] + [b], now + enc(a) + enc(b);
    ConcatNext(enc, start, n2, x2, c);
    ConcatNext(enc, start, n2 + enc(c), x2 + [c], d);
    var x4, n4 := x2 + [c] + [d], n2 + enc(c) + enc(d);
    ConcatNext(enc, start, n4, x4, e);
    ConcatNext(enc, start, n4 + enc(e), x4 + [e], f);
    assert x4 + [e] + [f] == xs + [a, b, c, d, e, f];
  }

  lemma SyslogBytes(w: Written, start: Data)
    requires SyslogSized(w)
    ensures
      start +
      Encode(NumberItem(1, w.priority)) + Encode(NumberItem(2, w.facility)) +
      Encode(NumberItem(3, w.severity)) + Encode(NumberItem(4, w.version)) +
      Encode(NumberItem(5, w.timeReported)) + Encode(NumberItem(6, w.timeGenerated)) +
      Encode(StringItem(7, w.hostName)) + Encode(StringItem(8, w.appName)) +
      Encode(StringItem(9, w.procId)) + Encode(StringItem(10, w.msgId)) +
      Encode(StringItem(11, w.structured)) + Encode(StringItem(12, w.message)) +
      Encode(SpanItem(13, MarshalOuter(w.properties)))
      == start + MarshalSyslog(w)
  {
    var x: seq<Item> := SyslogItems(w);
    ThirteenItems(Encode, start, x);
  }

  lemma ThirteenItems<T>(enc: T -> Data, start: Data, x: seq<T>)
    requires |x| == 13
    ensures
      start + enc(x[0]) + enc(x[1]) + enc(x[2]) + enc(x[3]) + enc(x[4]) + enc(x[5]) +
      enc(x[6]) + enc(x[7]) + enc(x[8]) + enc(x[9]) + enc(x[10]) + enc(x[11]) + enc(x[12])
      == start + Concat(enc, x)
  {
    assert start == start + Concat(enc, []);
    ConcatSix(enc, start, start, [], x[0], x[1], x[2], x[3], x[4], x[5]);
    assert [] + [x[0], x[1], x[2], x[3], x[4], x[5]] == x[..6];
    var six := start + enc(x[0]) + enc(x[1]) + enc(x[2]) + enc(x[3]) + enc(x[4]) + enc(x[5]);
    ConcatSix(enc, start, six, x[..6], x[6], x[7], x[8], x[9], x[10], x[11]);
    assert x[..6] + [x[6], x[7], x[8], x[9], x[10], x[11]] == x[..12];
    var twelve := six + enc(x[6]) + enc(x[7]) + enc(x[8]) + enc(x[9]) + enc(x[10]) + enc(x[11]);
    ConcatNext(enc, start, twelve, x[..12], x[12]);
    assert x[..12] + [x[12]] == x;
  }

  /** SyslogMessage.MarshalTo. */
  method MarshalSyslogTo(m: SyslogMessage<Properties>, a: array<Byte>, at: nat) returns (i: nat, ghost w: Written)
    requires SyslogMeasurable(m) && at + SyslogSize(m) <= a.Length
    modifies a
    ensures i == at + SyslogSize(m)
    ensures SyslogSized(w) && SyslogMeant(w) == m
    ensures a[..i] == old(a[..at]) + MarshalSyslog(w)
  {
    i := FillSyslogNumbers(m, a, at);
    i := FillSyslogStrings(m, a, i);
    ghost var qs;
    i, qs := FillProperties(m.properties, a, i);
    w := SyslogMessage(m.priority, m.facility, m.severity, m.version, m.timeReported, m.timeGenerated,
                       m.hostName, m.appName, m.procId, m.msgId, m.structured, m.message, qs);
    SyslogBytes(w, old(a[..at]));
  }

  // ---------------------------------------------------------- full messages

  ghost function FullSize(m: FullMessage<Properties>): nat {
    NumberSize(m.txnr) + StringSize(m.clientAddr) + StringSize(m.sourceType) + StringSize(m.sourcePath) +
    NumberSize(m.sourcePort) + 3 * Wrapped(16) +
    if m.fields.None? then 0 else Wrapped(SyslogSize(m.fields.value))
  }

  ghost predicate FullMeasurable(m: FullMessage<Properties>) {
    && IsInt32(m.txnr) && IsInt32(m.sourcePort)
    && IsInt64(|m.clientAddr|) && IsInt64(|m.sourceType|) && IsInt64(|m.sourcePath|)
    && (m.fields.Some? ==> SyslogMeasurable(m.fields.value))
  }

  /** FullMessage.Size. */
  method SizeFull(m: FullMessage<Properties>) returns (n: nat)
    requires FullMeasurable(m)
    ensures n == FullSize(m)
  {
    n := SizeNumber(m.txnr);
    var l := SizeString(m.clientAddr);
    n := n + l;
    l := SizeString(m.sourceType);
    n := n + l;
    l := SizeString(m.sourcePath);
    n := n + l;
    l := SizeNumber(m.sourcePort);
    n := n + l;
    l := Sov(16);
    n := n + 3 * (1 + 16 + l);
    if m.fields.Some? {
      l := SizeSyslog(m.fields.value);
      var s := Sov(l);
      n := n + 1 + l + s;
    }
  }

  method FillUlid(a: array<Byte>, at: nat, num: nat, id: Data) returns (i: nat)
    requires 6 <= num <= 8 && at + Wrapped(16) <= a.Length
    modifies a
    ensures i == at + Wrapped(16)
    ensures a[..i] == old(a[..at]) + Encode(SpanItem(num, Ulid(id)))
  {
    i := PutSpan(a, at, 8 * num + 2, Ulid(id));
  }

  /** The syslog part is written as its own message, after its own size. */
  method FillFields(m: SyslogMessage<Properties>, a: array<Byte>, at: nat) returns (i: nat, ghost w: Written)
    requires SyslogMeasurable(m) && at + Wrapped(SyslogSize(m)) <= a.Length
    modifies a
    ensures i == at + Wrapped(SyslogSize(m))
    ensures SyslogSized(w) && SyslogMeant(w) == m && IsInt64(|MarshalSyslog(w)|)
    ensures a[..i] == old(a[..at]) + Encode(SpanItem(9, MarshalSyslog(w)))
  {
    var n := SizeSyslog(m);
    i := PutTagged(a, at, 74, n);
    ghost var j := i;
    i, w := MarshalSyslogTo(m, a, i);
    ghost var b := MarshalSyslog(w);
    assert |b| == i - j == n;
    SpanBytes(old(a[..at]), 74, n, b);
  }

  lemma NineItems<T>(enc: T -> Data, start: Data, x: seq<T>)
    requires |x| == 9
    ensures
      start + enc(x[0]) + enc(x[1]) + enc(x[2]) + enc(x[3]) + enc(x[4]) + enc(x[5]) +
      enc(x[6]) + enc(x[7]) + enc(x[8])
      == start + Concat(enc, x)
  {
    assert start == start + Concat(enc, []);
    ConcatSix(enc, start, start, [], x[0], x[1], x[2], x[3], x[4], x[5]);
    assert [] + [x[0], x[1], x[2], x[3], x[4], x[5]] == x[..6];
    var six := start + enc(x[0]) + enc(x[1]) + enc(x[2]) + enc(x[3]) + enc(x[4]) + enc(x[5]);
    ConcatNext(enc, start, six, x[..6], x[6]);
    assert x[..6] + [x[6]] == x[..7];
    ConcatNext(enc, start, six + enc(x[6]), x[..7], x[7]);
    assert x[..7] + [x[7]] == x[..8];
    ConcatNext(enc, start, six + enc(x[6]) + enc(x[7]), x[..8], x[8]);
    assert x[..8] + [x[8]] == x;
  }

  lemma FullBytes(w: WrittenFull, start: Data)
    requires FullSized(w)
    ensures
      start + Encode(NumberItem(1, w.txnr)) + Encode(StringItem(2, w.clientAddr)) +
      Encode(StringItem(3, w.sourceType)) + Encode(StringItem(4, w.sourcePath)) +
      Encode(NumberItem(5, w.sourcePort)) + Encode(SpanItem(6, Ulid(w.connId))) +
      Encode(SpanItem(7, Ulid(w.confId))) + Encode(SpanItem(8, Ulid(w.uid))) +
      Encode(if w.fields.None? then StringItem(9, []) else SpanItem(9, MarshalSyslog(w.fields.value)))
      == start + MarshalFull(w)
  {
    var x: seq<Item> := FullItems(w);
    NineItems(Encode, start, x);
  }

  /** FullMessage.MarshalTo, up to the syslog part. */
  method FillSource(m: FullMessage<Properties>, a: array<Byte>, at: nat) returns (i: nat)
    requires FullMeasurable(m)
    requires at + FullSize(m) <= a.Length
    modifies a
    ensures
      i == at + NumberSize(m.txnr) + StringSize(m.clientAddr) + StringSize(m.sourceType) +
      StringSize(m.sourcePath) + NumberSize(m.sourcePort) + 3 * Wrapped(16)
    ensures
      a[..i] == old(a[..at]) + Encode(NumberItem(1, m.txnr)) + Encode(StringItem(2, m.clientAddr)) +
      Encode(StringItem(3, m.sourceType)) + Encode(StringItem(4, m.sourcePath)) +
      Encode(NumberItem(5, m.sourcePort)) + Encode(SpanItem(6, Ulid(m.connId))) +
      Encode(SpanItem(7, Ulid(m.confId))) + Encode(SpanItem(8, Ulid(m.uid)))
  {
    i := FillNumber(a, at, 1, m.txnr);
    i := FillString(a, i, 2, m.clientAddr);
    i := FillString(a, i, 3, m.sourceType);
    i := FillString(a, i, 4, m.sourcePath);
    i := FillNumber(a, i, 5, m.sourcePort);
    i := FillUlid(a, i, 6, m.connId);
    i := FillUlid(a, i, 7, m.confId);
    i := FillUlid(a, i, 8, m.uid);
  }

  method MarshalFullTo(m: FullMessage<Properties>, a: array<Byte>, at: nat) returns (i: nat, ghost w: WrittenFull)
    requires FullMeasurable(m) && at + FullSize(m) <= a.Length
    modifies a
    ensures i == at + FullSize(m)
    ensures FullSized(w) && a[..i] == old(a[..at]) + MarshalFull(w)
    ensures FullMeant(w) == Normal(m)
  {
    i := FillSource(m, a, at);
    ghost var fields: Option<Written> := None;
    if m.fields.Some? {
      ghost var f;
      i, f := FillFields(m.fields.value, a, i);
      fields := Some(f);
    }
    w := FullMessage(m.txnr, m.clientAddr, m.sourceType, m.sourcePath, m.sourcePort,
                     m.connId, m.confId, m.uid, fields);
    FullBytes(w, old(a[..at]));
  }

  /** A message with its identifiers made sixteen bytes long. */
  function Normal(m: FullMessage<Properties>): FullMessage<Properties> {
    m.(connId := Ulid(m.connId), confId := Ulid(m.confId), uid := Ulid(m.uid))
  }

  /** FullMessage.Marshal: the buffer is filled to the last byte, and reading it gives the message back. */
  method Marshal(m: FullMessage<Properties>) returns (data: Data)
    requires FullMeasurable(m)
    ensures |data| == FullSize(m)
    ensures Unmarshal(FULL, NO_MESSAGE, data) == Some(Normal(m))
  {
    var size := SizeFull(m);
    var a := new Byte[size];
    var n, w := MarshalFullTo(m, a, 0);
    data := a[..n];
    assert a[..n] == MarshalFull(w);
    FullRoundTrip(w);
  }
}
