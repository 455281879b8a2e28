/** Printing a message and reading it back (encoders/rfc5424.go, grammars/rfc5424). */
module Rfc5424Printer {
  import opened Bytes
  import opened Decimal
  import opened Listings
  import opened Rfc5424
  import opened Unicode

  /**
    A message; P is the type of its properties: a map, or the order in which one is printed.
    Times are in nanoseconds.
    */
  datatype Message<P> = Message(
    priority: int, facility: int, severity: int, version: int, reported: int, generated: int,
    host: Data, app: Data, proc: Data, msgid: Data, structured: Data, text: Data, properties: P)

  const SECOND: int := 1_000_000_000

  datatype Instant = Instant(sec: int, nsec: int)

  /** The time package: a second as an RFC 3339 text, what such a text says, and the time of decoding. */
  datatype Clock = Clock(format: int -> Data, parse: Data -> Option<Instant>, now: int)

  /** The seconds of the times that 64 bits of nanoseconds can tell. */
  predicate Tellable(sec: int) { -9_223_372_037 <= sec <= 9_223_372_036 }

  /** What is taken for granted of the time package: a printed second is a text to the second in UTC, and is read back. */
  ghost predicate Sound(clock: Clock) {
    forall sec :: Tellable(sec) ==> IsStamp(clock.format(sec)) && clock.parse(clock.format(sec)) == Some(Instant(sec, 0))
  }

  /** UnixNano, which wraps around. */
  function UnixNano(i: Instant): int {
    (i.sec * SECOND + i.nsec + TWO63) % TWO64 - TWO63
  }

  /** The time reported, as it is printed: the fraction of a second is left out. */
  function Stamp(clock: Clock, reported: int): Data { clock.format(reported / SECOND) }

  lemma StampIs(clock: Clock, reported: int)
    requires Sound(clock) && IsInt64(reported)
    ensures IsStamp(Stamp(clock, reported))
    ensures clock.parse(Stamp(clock, reported)) == Some(Instant(reported / SECOND, 0))
  {
    assert Tellable(reported / SECOND);
  }

  predicate All(cls: Byte -> bool, d: Data) { forall i :: 0 <= i < |d| ==> cls(d[i]) }

  /** validName: the empty name is valid. */
  predicate ValidName(s: Data) { All(NameChar, s) }

  predicate ValidParam(p: (Data, Data)) { ValidName(p.0) && Utf8(p.1) }

  predicate ValidElement(e: (Data, Listing<Data>)) {
    ValidName(e.0) && forall i :: 0 <= i < |e.1| ==> ValidParam(e.1[i])
  }

  predicate ValidElements(es: Elements) { forall i :: 0 <= i < |es| ==> ValidElement(es[i]) }

  /** validRfc5424. */
  predicate Valid(m: Message<Elements>) {
    && All(Printable, m.host) && |m.host| <= 255 && All(Printable, m.app) && |m.app| <= 48
    && All(Printable, m.proc) && |m.proc| <= 128 && All(Printable, m.msgid) && |m.msgid| <= 32
    && ValidElements(m.properties)
  }

  /** Times are printed in UTC, to the second. */
  predicate IsStamp(s: Data) { |s| == 20 && DateTime(s) && s[19] == 90 }

  function Nilify(s: Data): Data { if s == [] then [HYPHEN] else s }

  function Short(name: Data): Data { if |name| > 32 then name[..32] else name }

  function PrintParam(p: (Data, Data)): Data {
    [SP] + (Short(p.0) + ([EQUAL, QUOTE] + (Escape(p.1) + [QUOTE])))
  }

  function PrintElement(e: (Data, Listing<Data>)): Data {
    [OPEN] + (e.0 + (Concat(PrintParam, e.1) + [CLOSE]))
  }

  function PrintStructured(es: Elements): Data {
    if es == [] then [HYPHEN] else Concat(PrintElement, es)
  }

  function HeaderFields(m: Message<Elements>): seq<Data> {
    [Nilify(m.host), Nilify(m.app), Nilify(m.proc), Nilify(m.msgid)]
  }

  function PrintField(f: Data): Data { f + [SP] }

  function PrintText(text: Data): Data { if text == [] then [] else [SP] + text }

  /** encodeMsg5424, for a valid message. */
  function Print(clock: Clock, m: Message<Elements>): Data {
    [LESS] + (IntText(m.priority) + ([MORE] + ([49] + ([SP] + (Stamp(clock, m.reported) + ([SP] +
    (Concat(PrintField, HeaderFields(m)) + (PrintStructured(m.properties) + PrintText(m.text)))))))))
  }

  // ---------------------------------------------------------------- pieces

  lemma {:induction false} SpanIs(cls: Byte -> bool, a: Data, rest: Data)
    requires All(cls, a) && (rest == [] || !cls(rest[0]))
    ensures Span(cls, a + rest) == |a|
  {
    if a == [] {
      assert a + rest == rest;
    } else {
      assert (a + rest)[1..] == a[1..] + rest;
      SpanIs(cls, a[1..], rest);
    }
  }

  lemma ManyIs(cls: Byte -> bool, a: Data, rest: Data)
    requires All(cls, a) && (rest == [] || !cls(rest[0]))
    ensures Many(cls, a + rest) == if a == [] then Bad else Got(a, rest)
  {
    SpanIs(cls, a, rest);
    assert (a + rest)[..|a|] == a && (a + rest)[|a|..] == rest;
  }

  lemma ExpectIs(b: Byte, rest: Data)
    ensures Expect(b, [b] + rest) == Got((), rest)
  {
    assert ([b] + rest)[1..] == rest;
  }

  lemma {:induction false} EscapedLength(v: Data, rest: Data)
    ensures ValueLength(Escape(v) + [QUOTE] + rest) == Some(|Escape(v)|)
    decreases |v|
  {
    if v == [] {
      assert Escape(v) + [QUOTE] + rest == [QUOTE] + rest;
    } else {
      EscapeHead(v);
      EscapedLength(v[1..], rest);
      var tail := Escape(v[1..]) + [QUOTE] + rest;
      assert Escape(v) + [QUOTE] + rest == EscapeByte(v[0]) + tail;
      EscapedByte(v[0], tail);
    }
  }

  lemma EscapedByte(b: Byte, tail: Data)
    requires ValueLength(tail).Some?
    ensures ValueLength(EscapeByte(b) + tail) == Some(|EscapeByte(b)| + ValueLength(tail).value)
  {
    if Special(b) {
      var d := [ANTISLASH, b] + tail;
      assert d[2..] == tail;
    } else {
      var d := [b] + tail;
      assert d[1..] == tail;
    }
  }

  /** An escaped value is read to its end and no further. */
  lemma ValueIs(v: Data, rest: Data)
    ensures ParamValue(Escape(v) + ([QUOTE] + rest)) == Got(Escape(v), [QUOTE] + rest)
  {
    var d := Escape(v) + ([QUOTE] + rest);
    assert d == Escape(v) + [QUOTE] + rest;
    EscapedLength(v, rest);
    assert d[..|Escape(v)|] == Escape(v) && d[|Escape(v)|..] == [QUOTE] + rest;
  }

  /** A parameter as it is read back: the name is cut and the value keeps its escapes. */
  function ParamRead(p: (Data, Data)): (Data, Data) { (Short(p.0), Escape(p.1)) }

  lemma ParamIs(p: (Data, Data), rest: Data)
    requires ValidName(p.0)
    ensures
      Param(Short(p.0) + ([EQUAL, QUOTE] + (Escape(p.1) + [QUOTE])) + rest)
      == if p.0 == [] then Bad else Got(ParamRead(p), rest)
  {
    var name, after := Short(p.0), Escape(p.1) + ([QUOTE] + rest);
    var d := name + ([EQUAL, QUOTE] + (Escape(p.1) + [QUOTE])) + rest;
    assert d == name + ([EQUAL] + ([QUOTE] + after));
    ManyIs(NameChar, name, [EQUAL] + ([QUOTE] + after));
    ExpectIs(EQUAL, [QUOTE] + after);
    ExpectIs(QUOTE, after);
    ValueIs(p.1, rest);
    ExpectIs(QUOTE, rest);
  }

  // -------------------------------------------------------- structured data

  function ReadParams(ps: Listing<Data>): Listing<Data> {
    if ps == [] then [] else [ParamRead(ps[0])] + ReadParams(ps[1..])
  }

  predicate ParamsNamed(ps: Listing<Data>) { forall i :: 0 <= i < |ps| ==> ps[i].0 != [] }

  lemma ParamsNamedSplit(ps: Listing<Data>)
    requires ps != []
    ensures ParamsNamed(ps) <==> ps[0].0 != [] && ParamsNamed(ps[1..])
  {
    assert forall i :: 0 < i < |ps| ==> ps[i] == ps[1..][i - 1];
  }

  lemma {:induction false} ParamsIs(ps: Listing<Data>, rest: Data)
    requires forall i :: 0 <= i < |ps| ==> ValidName(ps[i].0)
    ensures
      Params(Concat(PrintParam, ps) + ([CLOSE] + rest))
      == if ParamsNamed(ps) then Got(ReadParams(ps), rest) else Bad
  {
    var d := Concat(PrintParam, ps) + ([CLOSE] + rest);
    if ps == [] {
      assert d == [CLOSE] + rest;
      ExpectIs(CLOSE, rest);
    } else {
      var p, more := ps[0], Concat(PrintParam, ps[1..]) + ([CLOSE] + rest);
      var body := Short(p.0) + ([EQUAL, QUOTE] + (Escape(p.1) + [QUOTE]));
      assert d == [SP] + (body + more) by {
        assert d == PrintParam(p) + Concat(PrintParam, ps[1..]) + ([CLOSE] + rest);
      }
      assert d[1..] == body + more;
      ParamIs(p, more);
      ParamsNamedSplit(ps);
      ParamsIs(ps[1..], rest);
    }
  }

  function ElementRead(e: (Data, Listing<Data>)): (Data, Listing<Data>) { (e.0, ReadParams(e.1)) }

  predicate ElementNamed(e: (Data, Listing<Data>)) { e.0 != [] && ParamsNamed(e.1) }

  lemma ElementIs(e: (Data, Listing<Data>), rest: Data)
    requires ValidElement(e)
    ensures Element(PrintElement(e) + rest) == if ElementNamed(e) then Got(ElementRead(e), rest) else Bad
  {
    var params := Concat(PrintParam, e.1) + ([CLOSE] + rest);
    assert PrintElement(e) + rest == [OPEN] + (e.0 + params);
    ExpectIs(OPEN, e.0 + params);
    ParamsStart(e.1, rest);
    ManyIs(NameChar, e.0, params);
    ParamsIs(e.1, rest);
  }

  lemma ParamsStart(ps: Listing<Data>, rest: Data)
    ensures
      var d := Concat(PrintParam, ps) + ([CLOSE] + rest);
      d != [] && !NameChar(d[0])
  {
    if ps != [] { assert Concat(PrintParam, ps)[0] == PrintParam(ps[0])[0]; }
  }

  function ReadElements(es: Elements): Elements {
    if es == [] then [] else [ElementRead(es[0])] + ReadElements(es[1..])
  }

  predicate AllNamed(es: Elements) { forall i :: 0 <= i < |es| ==> ElementNamed(es[i]) }

  lemma AllNamedSplit(es: Elements)
    requires es != []
    ensures AllNamed(es) <==> ElementNamed(es[0]) && AllNamed(es[1..])
  {
    assert forall i :: 0 < i < |es| ==> es[i] == es[1..][i - 1];
  }

  lemma {:induction false} ElementsAre(es: Elements, rest: Data)
    requires ValidElements(es) && (rest == [] || rest[0] != OPEN)
    ensures
      ElementsOf(Concat(PrintElement, es) + rest)
      == if AllNamed(es) then Got(ReadElements(es), rest) else Bad
  {
    var d := Concat(PrintElement, es) + rest;
    if es == [] {
      assert d == rest;
    } else {
      var more := Concat(PrintElement, es[1..]) + rest;
      assert d == PrintElement(es[0]) + more;
      assert d[0] == OPEN;
      ElementIs(es[0], more);
      AllNamedSplit(es);
      ElementsAre(es[1..], rest);
    }
  }

  lemma StructuredIs(es: Elements, rest: Data)
    requires ValidElements(es) && (rest == [] || rest[0] != OPEN)
    ensures
      Structured(PrintStructured(es) + rest) == if AllNamed(es) then Got(ReadElements(es), rest) else Bad
  {
    var d := PrintStructured(es) + rest;
    if es == [] {
      assert d[1..] == rest;
    } else {
      assert d[0] == PrintElement(es[0])[0] == OPEN;
      ElementsAre(es, rest);
    }
  }

  // ------------------------------------------------------------- the header

  lemma OneField(n: nat, f: Data, more: Data, fs: seq<Data>, rest: Data)
    requires n > 0 && f != [] && All(Printable, f) && (more == [] || more[0] != SP)
    requires Fields(n - 1, more) == Got(fs, rest)
    ensures Fields(n, f + ([SP] + more)) == Got([f] + fs, rest)
  {
    ManyIs(Printable, f, [SP] + more);
    ManyIs(IsSpace, [SP], more);
  }

  predicate GoodFields(fs: seq<Data>) {
    forall i :: 0 <= i < |fs| ==> fs[i] != [] && All(Printable, fs[i])
  }

  lemma FieldsStart(fs: seq<Data>, rest: Data)
    requires GoodFields(fs) && (rest == [] || rest[0] != SP)
    ensures
      var d := Concat(PrintField, fs) + rest;
      d == [] || d[0] != SP
  {
    if fs == [] {
      assert Concat(PrintField, fs) + rest == rest;
    } else {
      ConcatStart(PrintField, fs, rest);
      assert Printable(fs[0][0]);
    }
  }

  lemma FieldsFirst(fs: seq<Data>, rest: Data)
    requires fs != []
    ensures Concat(PrintField, fs) + rest == fs[0] + ([SP] + (Concat(PrintField, fs[1..]) + rest))
  {
  }

  lemma FieldsStep(fs: seq<Data>, more: Data, rest: Data)
    requires fs != [] && fs[0] != [] && All(Printable, fs[0]) && (more == [] || more[0] != SP)
    requires Fields(|fs| - 1, more) == Got(fs[1..], rest)
    ensures Fields(|fs|, fs[0] + ([SP] + more)) == Got(fs, rest)
  {
    assert fs == [fs[0]] + fs[1..];
    OneField(|fs|, fs[0], more, fs[1..], rest);
  }

  lemma {:induction false} FieldsAre(fs: seq<Data>, rest: Data)
    requires GoodFields(fs) && (rest == [] || rest[0] != SP)
    ensures Fields(|fs|, Concat(PrintField, fs) + rest) == Got(fs, rest)
  {
    if fs == [] {
      assert Concat(PrintField, fs) + rest == rest;
    } else {
      var tail := fs[1..];
      FieldsFirst(fs, rest);
      FieldsStart(tail, rest);
      FieldsAre(tail, rest);
      FieldsStep(fs, Concat(PrintField, tail) + rest, rest);
    }
  }

  lemma TimestampIs(stamp: Data, rest: Data)
    requires IsStamp(stamp)
    ensures Timestamp(stamp + rest) == Got(stamp, rest)
  {
    var d := stamp + rest;
    assert forall i :: 0 <= i < 20 ==> d[i] == stamp[i];
    assert d[19..][0] == 90;
    assert d[..20] == stamp && d[20..] == rest;
  }

  lemma PreambleIs(pri: Data, stamp: Data, rest: Data)
    requires IsStamp(stamp) && pri != [] && (rest == [] || rest[0] != SP)
    requires AllDigits(pri) || !IsDigit(pri[0])
    ensures
      Preamble([LESS] + (pri + ([MORE] + ([49] + ([SP] + (stamp + ([SP] + rest)))))))
      == if AllDigits(pri) then Got(Prefix(pri, [49], stamp), rest) else Bad
  {
    var d5 := [SP] + rest;
    var d4 := stamp + d5;
    var d3 := [49] + ([SP] + d4);
    var d2 := pri + ([MORE] + d3);
    ExpectIs(LESS, d2);
    if AllDigits(pri) {
      ManyIs(IsDigit, pri, [MORE] + d3);
      ExpectIs(MORE, d3);
      ManyIs(IsDigit, [49], [SP] + d4);
      assert d4[0] == stamp[0] && IsDigit(stamp[0]);
      ManyIs(IsSpace, [SP], d4);
      TimestampIs(stamp, d5);
      ManyIs(IsSpace, [SP], rest);
    } else {
      assert d2[0] == pri[0];
    }
  }

  function Trimmed(text: Data): Data { text[Span(IsSpace, text)..] }

  lemma EndingIs(text: Data)
    ensures Ending(PrintText(text)) == Some(if text == [] then None else Some(Trimmed(text)))
  {
    if text != [] {
      var d := [SP] + text;
      assert d[1..] == text;
      assert d[1 + Span(IsSpace, text)..] == Trimmed(text);
    }
  }

  // ----------------------------------------------------------- the round trip

  function TreeOf(clock: Clock, m: Message<Elements>): Tree {
    Tree(IntText(m.priority), [49], Stamp(clock, m.reported), Nilify(m.host), Nilify(m.app), Nilify(m.proc), Nilify(m.msgid),
         ReadElements(m.properties), if m.text == [] then None else Some(Trimmed(m.text)))
  }

  lemma StructuredStart(es: Elements, rest: Data)
    ensures (PrintStructured(es) + rest) != [] && (PrintStructured(es) + rest)[0] != SP
  {
    if es != [] { assert Concat(PrintElement, es)[0] == PrintElement(es[0])[0]; }
  }

  lemma PriorityText(n: int)
    ensures n >= 0 ==> AllDigits(IntText(n))
    ensures n < 0 ==> !IsDigit(IntText(n)[0]) && !AllDigits(IntText(n))
  {
  }

  /** The parts of what is printed. */
  lemma PartsAreRead(clock: Clock, m: Message<Elements>)
    requires Valid(m) && IsStamp(Stamp(clock, m.reported))
    ensures Full(Print(clock, m)) == if m.priority >= 0 && AllNamed(m.properties) then Some(TreeOf(clock, m)) else None
  {
    var d3 := PrintText(m.text);
    var d2 := PrintStructured(m.properties) + d3;
    var d1 := Concat(PrintField, HeaderFields(m)) + d2;
    PriorityText(m.priority);
    assert d1 != [] && d1[0] != SP by { assert d1[0] == HeaderFields(m)[0][0]; }
    PreambleIs(IntText(m.priority), Stamp(clock, m.reported), d1);
    StructuredStart(m.properties, d3);
    FieldsAre(HeaderFields(m), d2);
    StructuredIs(m.properties, d3);
    EndingIs(m.text);
  }

  // ------------------------------------------------------- bytes and characters

  lemma FrontJoins(v: Data, n: nat, rest: Data)
    requires 0 < n <= |v|
    ensures v[1..][n - 1..] == v[n..] && [v[0]] + (v[1..][..n - 1] + rest) == v[..n] + rest
  {
    assert v[..n] == [v[0]] + v[1..][..n - 1];
  }

  lemma {:induction false} EscapeFront(v: Data, n: nat)
    requires n <= |v| && forall i :: 0 <= i < n ==> !Special(v[i])
    ensures Escape(v) == v[..n] + Escape(v[n..])
    decreases n
  {
    if n == 0 {
      assert v[0..] == v;
    } else {
      EscapeHead(v);
      EscapeFront(v[1..], n - 1);
      FrontJoins(v, n, Escape(v[n..]));
    }
  }

  /** Escapes do not come between the bytes of a character. */
  lemma {:induction false} EscapeUtf8(v: Data)
    requires Utf8(v)
    ensures Utf8(Escape(v))
  {
    if v == [] {
    } else if v[0] < 0x80 {
      EscapeHead(v);
      EscapeUtf8(v[1..]);
      AsciiUtf8(EscapeByte(v[0]));
      Utf8Append(EscapeByte(v[0]), Escape(v[1..]));
    } else {
      var n := Rune(v);
      RuneBytes(v);
      EscapeFront(v, n);
      EscapeUtf8(v[n..]);
      RuneAlone(v);
      Utf8Append(v[..n], Escape(v[n..]));
    }
  }

  lemma {:induction false} ConcatUtf8<T>(f: T -> Data, xs: seq<T>)
    requires forall i :: 0 <= i < |xs| ==> Utf8(f(xs[i]))
    ensures Utf8(Concat(f, xs))
  {
    if xs == [] {
    } else {
      ConcatUtf8(f, xs[1..]);
      Utf8Append(f(xs[0]), Concat(f, xs[1..]));
    }
  }

  lemma NameUtf8(name: Data)
    requires ValidName(name)
    ensures Utf8(name) && Utf8(Short(name))
  {
    AsciiUtf8(name);
    AsciiUtf8(Short(name));
  }

  lemma ParamUtf8(p: (Data, Data))
    requires ValidParam(p)
    ensures Utf8(PrintParam(p))
  {
    NameUtf8(p.0);
    EscapeUtf8(p.1);
    AsciiUtf8([SP]);
    AsciiUtf8([EQUAL, QUOTE]);
    AsciiUtf8([QUOTE]);
    Utf8Append(Escape(p.1), [QUOTE]);
    Utf8Append([EQUAL, QUOTE], Escape(p.1) + [QUOTE]);
    Utf8Append(Short(p.0), [EQUAL, QUOTE] + (Escape(p.1) + [QUOTE]));
    Utf8Append([SP], Short(p.0) + ([EQUAL, QUOTE] + (Escape(p.1) + [QUOTE])));
  }

  lemma ElementUtf8(e: (Data, Listing<Data>))
    requires ValidElement(e)
    ensures Utf8(PrintElement(e))
  {
    forall i | 0 <= i < |e.1| ensures Utf8(PrintParam(e.1[i])) { ParamUtf8(e.1[i]); }
    ConcatUtf8(PrintParam, e.1);
    NameUtf8(e.0);
    AsciiUtf8([OPEN]);
    AsciiUtf8([CLOSE]);
    Utf8Append(Concat(PrintParam, e.1), [CLOSE]);
    Utf8Append(e.0, Concat(PrintParam, e.1) + [CLOSE]);
    Utf8Append([OPEN], e.0 + (Concat(PrintParam, e.1) + [CLOSE]));
  }

  lemma StructuredUtf8(es: Elements)
    requires ValidElements(es)
    ensures Utf8(PrintStructured(es))
  {
    forall i | 0 <= i < |es| ensures Utf8(PrintElement(es[i])) { ElementUtf8(es[i]); }
    ConcatUtf8(PrintElement, es);
    AsciiUtf8([HYPHEN]);
  }

  lemma FieldUtf8(f: Data)
    requires All(Printable, f)
    ensures Utf8(PrintField(f))
  {
    AsciiUtf8(PrintField(f));
  }

  lemma HeaderUtf8(m: Message<Elements>)
    requires Valid(m)
    ensures Utf8(Concat(PrintField, HeaderFields(m)))
  {
    var fs := HeaderFields(m);
    forall i | 0 <= i < |fs| ensures Utf8(PrintField(fs[i])) { FieldUtf8(fs[i]); }
    ConcatUtf8(PrintField, fs);
  }

  lemma PriorityAscii(n: int)
    ensures forall i :: 0 <= i < |IntText(n)| ==> IntText(n)[i] < 0x80
  {
    var d := Digits(if n < 0 then -n else n);
    assert forall i :: 0 <= i < |d| ==> IsDigit(d[i]);
  }

  lemma IntTextUtf8(n: int)
    ensures Utf8(IntText(n))
  {
    PriorityAscii(n);
    AsciiUtf8(IntText(n));
  }

  lemma RunesText(text: Data)
    ensures Runes(PrintText(text)) == PrintText(Runes(text))
  {
    RunesLength(text);
    AsciiUtf8([SP]);
    Utf8Append([SP], text);
  }

  /** A part that is UTF-8 is left alone, whatever follows it. */
  lemma RunesStep(a: Data, b: Data, c: Data)
    requires Utf8(a) && Runes(b) == c
    ensures Runes(a + b) == a + c
  {
    Utf8Append(a, b);
  }

  /** Only the text of what is printed for a valid message can contain other bytes than UTF-8. */
  lemma RunesPrint(clock: Clock, m: Message<Elements>)
    requires Valid(m) && IsStamp(Stamp(clock, m.reported))
    ensures Runes(Print(clock, m)) == Print(clock, m.(text := Runes(m.text)))
  {
    var w := m.(text := Runes(m.text));
    var stamp, fields, sd := Stamp(clock, m.reported), Concat(PrintField, HeaderFields(m)), PrintStructured(m.properties);
    var x0, y0 := PrintText(m.text), PrintText(w.text);
    RunesText(m.text);
    StructuredUtf8(m.properties);
    RunesStep(sd, x0, y0);
    HeaderUtf8(m);
    IntTextUtf8(m.priority);
    RunesStep(fields, sd + x0, sd + y0);
    PreambleRunes(IntText(m.priority), stamp, fields + (sd + x0), fields + (sd + y0));
  }

  lemma PreambleRunes(pri: Data, stamp: Data, b: Data, c: Data)
    requires Utf8(pri) && IsStamp(stamp) && Runes(b) == c
    ensures
      Runes([LESS] + (pri + ([MORE] + ([49] + ([SP] + (stamp + ([SP] + b)))))))
      == [LESS] + (pri + ([MORE] + ([49] + ([SP] + (stamp + ([SP] + c))))))
  {
    AsciiUtf8([LESS]);
    AsciiUtf8([MORE]);
    AsciiUtf8([49]);
    AsciiUtf8([SP]);
    AsciiUtf8(stamp);
    RunesStep([SP], b, c);
    RunesStep(stamp, [SP] + b, [SP] + c);
    RunesStep([SP], stamp + ([SP] + b), stamp + ([SP] + c));
    RunesStep([49], [SP] + (stamp + ([SP] + b)), [SP] + (stamp + ([SP] + c)));
    RunesStep([MORE], [49] + ([SP] + (stamp + ([SP] + b))), [49] + ([SP] + (stamp + ([SP] + c))));
    RunesStep(pri, [MORE] + ([49] + ([SP] + (stamp + ([SP] + b)))), [MORE] + ([49] + ([SP] + (stamp + ([SP] + c)))));
    RunesStep([LESS], pri + ([MORE] + ([49] + ([SP] + (stamp + ([SP] + b))))),
              pri + ([MORE] + ([49] + ([SP] + (stamp + ([SP] + c))))));
  }

  /**
    The grammar, which reads characters, accepts what is printed for a valid message exactly when the
    priority is not negative and every name is there, and it finds the parts that were printed; bytes
    of the text that start no character are replaced.
    */
  lemma PrintedIsRead(clock: Clock, m: Message<Elements>)
    requires Valid(m) && IsStamp(Stamp(clock, m.reported))
    ensures
      Full(Runes(Print(clock, m)))
      == if m.priority >= 0 && AllNamed(m.properties) then Some(TreeOf(clock, m.(text := Runes(m.text)))) else None
  {
    RunesPrint(clock, m);
    PartsAreRead(clock, m.(text := Runes(m.text)));
  }
}
