/** Encoding a message whose properties are maps, in whatever order they are iterated over (encoders/rfc5424.go). */
module Rfc5424Encoder {
  import opened Bytes
  import opened Decimal
  import opened Listings
  import opened Rfc5424
  import opened Rfc5424Printer
  import opened Rfc5424Listener
  import opened Unicode

  predicate ValidInner(m: map<Data, Data>) { forall k :: k in m ==> ValidName(k) && Utf8(m[k]) }

  predicate ValidMap(m: Properties) { forall k :: k in m ==> ValidName(k) && ValidInner(m[k]) }

  /** validRfc5424 on a message with maps. */
  predicate ValidMessage(m: Message<Properties>) {
    && All(Printable, m.host) && |m.host| <= 255 && All(Printable, m.app) && |m.app| <= 48
    && All(Printable, m.proc) && |m.proc| <= 128 && All(Printable, m.msgid) && |m.msgid| <= 32
    && ValidMap(m.properties)
  }

  predicate ValidParams(ps: Listing<Data>) { forall i :: 0 <= i < |ps| ==> ValidParam(ps[i]) }

  lemma ValidParamsSnoc(ps: Listing<Data>, p: (Data, Data))
    requires ValidParams(ps) && ValidParam(p)
    ensures ValidParams(ps + [p])
  {
  }

  /** A listing of an inner map that may be printed. */
  ghost predicate ParamsOf(ps: Listing<Data>, m: map<Data, Data>) {
    MapFrom(map[], ps) == m && DistinctKeys(ps) && ValidParams(ps)
  }

  /** Prints every property once, in whatever order. */
  method PrintParams(m: map<Data, Data>) returns (bs: Data)
    requires ValidInner(m)
    ensures exists ps :: ParamsOf(ps, m) && bs == Concat(PrintParam, ps)
  {
    bs := [];
    ghost var ps: Listing<Data> := [];
    var left := m;
    IteratedFirst(Same, m);
    while left != map[]
      invariant Iterated(Same, m, left, ps) && ValidParams(ps) && bs == Concat(PrintParam, ps)
      decreases |left|
    {
      var k :| k in left;
      IteratedStep(Same, m, left, ps, k, m[k]);
      ValidParamsSnoc(ps, (k, m[k]));
      ConcatSnoc(PrintParam, ps, (k, m[k]));
      bs := bs + PrintParam((k, m[k]));
      ps := ps + [(k, m[k])];
      left := left - {k};
    }
    IteratedLast(Same, m, ps);
    MeaningSame(ps);
    assert ParamsOf(ps, m);
  }

  /** Elements that may be printed, none with a name twice. */
  predicate SoundElements(es: Elements) {
    ValidElements(es) && forall i :: 0 <= i < |es| ==> DistinctKeys(es[i].1)
  }

  lemma SoundElementsSnoc(es: Elements, k: Data, ps: Listing<Data>)
    requires SoundElements(es) && ValidName(k) && ValidParams(ps) && DistinctKeys(ps)
    ensures SoundElements(es + [(k, ps)])
  {
  }

  ghost predicate ElementsListed(es: Elements, m: Properties) {
    OuterMap(es) == m && |es| == |m| && DistinctKeys(es) && SoundElements(es)
  }

  /** Prints every domain once, in whatever order. */
  method PrintElements(m: Properties) returns (bs: Data)
    requires ValidMap(m)
    ensures exists es :: ElementsListed(es, m) && bs == Concat(PrintElement, es)
  {
    bs := [];
    ghost var es: Elements := [];
    var left := m;
    IteratedFirst(InnerMap, m);
    while left != map[]
      invariant Iterated(InnerMap, m, left, es) && SoundElements(es) && bs == Concat(PrintElement, es)
      decreases |left|
    {
      var k :| k in left;
      var params := PrintParams(m[k]);
      ghost var ps :| ParamsOf(ps, m[k]) && params == Concat(PrintParam, ps);
      IteratedStep(InnerMap, m, left, es, k, ps);
      SoundElementsSnoc(es, k, ps);
      ConcatSnoc(PrintElement, es, (k, ps));
      bs := bs + ([OPEN] + (k + (params + [CLOSE])));
      es := es + [(k, ps)];
      left := left - {k};
    }
    IteratedLast(InnerMap, m, es);
    assert ElementsListed(es, m);
  }

  /**
    encodeMsg5424: exactly the valid messages are printed, and what is printed is read back, whatever
    the order of the maps.
    */
  method EncodeMsg5424(clock: Clock, m: Message<Properties>) returns (r: Option<Data>)
    ensures r.Some? <==> ValidMessage(m)
    ensures r.Some? && IsInt32(m.priority) && IsInt64(m.reported) && Sound(clock) ==>
      var d := Decode(clock, r.value);
      && (d.Some? <==> Accepted(m))
      && (Accepted(m) && AllShort(m.properties) ==> d == Some(Expected(clock, m)))
      && (d == Some(m) <==> Accepted(m) && AllShort(m.properties) && Regular(clock, m))
  {
    if !ValidMessage(m) { return None; }
    var elements := PrintElements(m.properties);
    ghost var es :| ElementsListed(es, m.properties) && elements == Concat(PrintElement, es);
    var sd := if |m.properties| == 0 then [HYPHEN] else elements;
    var stamp := clock.format(m.reported / SECOND);
    var header := [LESS] + (IntText(m.priority) + ([MORE] + ([49] + ([SP] + (stamp + [SP])))));
    var names :=
      Nilify(m.host) + [SP] + (Nilify(m.app) + [SP] + (Nilify(m.proc) + [SP] + (Nilify(m.msgid) + [SP])));
    var text := if m.text == [] then [] else [SP] + m.text;
    r := Some(header + names + sd + text);
    PrintIs(clock, Ordered(m, es), header, names, sd, text);
    if IsInt32(m.priority) && IsInt64(m.reported) && Sound(clock) {
      MapsComeBack(clock, m, es);
      UnchangedWhen(clock, m, es);
    }
  }

  lemma PrintIs(clock: Clock, w: Message<Elements>, header: Data, names: Data, sd: Data, text: Data)
    requires header == [LESS] + (IntText(w.priority) + ([MORE] + ([49] + ([SP] + (Stamp(clock, w.reported) + [SP])))))
    requires
      names ==
      Nilify(w.host) + [SP] + (Nilify(w.app) + [SP] + (Nilify(w.proc) + [SP] + (Nilify(w.msgid) + [SP])))
    requires sd == PrintStructured(w.properties) && text == PrintText(w.text)
    ensures header + names + sd + text == Print(clock, w)
  {
    FourFields(Nilify(w.host), Nilify(w.app), Nilify(w.proc), Nilify(w.msgid));
    HeaderJoins(IntText(w.priority), Stamp(clock, w.reported), names + (sd + text));
    assert header + names + sd + text == header + (names + (sd + text));
  }

  lemma FourFields(a: Data, b: Data, c: Data, d: Data)
    ensures Concat(PrintField, [a, b, c, d]) == a + [SP] + (b + [SP] + (c + [SP] + (d + [SP])))
  {
    FieldFirst(a, [b, c, d]);
    FieldFirst(b, [c, d]);
    FieldFirst(c, [d]);
    FieldFirst(d, []);
    assert [a] + [b, c, d] == [a, b, c, d] && [b] + [c, d] == [b, c, d] && [c] + [d] == [c, d];
    assert [d] + [] == [d];
  }

  lemma FieldFirst(f: Data, fs: seq<Data>)
    ensures Concat(PrintField, [f] + fs) == f + [SP] + Concat(PrintField, fs)
  {
    assert ([f] + fs)[1..] == fs;
  }

  lemma HeaderJoins(pri: Data, stamp: Data, rest: Data)
    ensures
      [LESS] + (pri + ([MORE] + ([49] + ([SP] + (stamp + [SP]))))) + rest
      == [LESS] + (pri + ([MORE] + ([49] + ([SP] + (stamp + ([SP] + rest))))))
  {
  }
}
