/** RFC 5424 messages: the printer, and the grammar that reads them back (encoders/rfc5424.go, grammars/rfc5424). */
module Rfc5424 {
  import opened Bytes
  import opened Decimal
  import opened Listings

  const SP: Byte := 32
  const QUOTE: Byte := 34
  const HYPHEN: Byte := 45
  const DOT: Byte := 46
  const COLON: Byte := 58
  const LESS: Byte := 60
  const EQUAL: Byte := 61
  const MORE: Byte := 62
  const OPEN: Byte := 91
  const ANTISLASH: Byte := 92
  const CLOSE: Byte := 93

  predicate Printable(b: Byte) { 33 <= b <= 126 }

  predicate NameChar(b: Byte) { Printable(b) && b != EQUAL && b != CLOSE && b != QUOTE }

  predicate Special(b: Byte) { b == ANTISLASH || b == QUOTE || b == CLOSE }

  // ------------------------------------------------------------- escaping

  function EscapeByte(b: Byte): Data { if Special(b) then [ANTISLASH, b] else [b] }

  function Escape(s: Data): Data {
    if s == [] then [] else Escape(s[..|s| - 1]) + EscapeByte(s[|s| - 1])
  }

  function Specials(s: Data): nat {
    if s == [] then 0 else Specials(s[..|s| - 1]) + if Special(s[|s| - 1]) then 1 else 0
  }

  lemma {:induction false} EscapeLength(s: Data)
    ensures |Escape(s)| == |s| + Specials(s)
  {
    if s == [] {
    } else {
      EscapeLength(s[..|s| - 1]);
    }
  }

  lemma {:induction false} SpecialsGrow(s: Data, k: nat)
    requires k <= |s|
    ensures Specials(s[..k]) <= Specials(s)
    decreases |s| - k
  {
    if k < |s| {
      assert s[..k + 1][..k] == s[..k];
      SpecialsGrow(s, k + 1);
    } else {
      assert s[..k] == s;
    }
  }

  lemma {:induction false} NothingToEscape(s: Data)
    requires Specials(s) == 0
    ensures Escape(s) == s
  {
    if s == [] {
    } else {
      NothingToEscape(s[..|s| - 1]);
      assert s == s[..|s| - 1] + [s[|s| - 1]];
    }
  }

  lemma {:induction false} EscapeSnoc(s: Data, k: nat)
    requires k < |s|
    ensures Escape(s[..k + 1]) == Escape(s[..k]) + EscapeByte(s[k])
    ensures Specials(s[..k + 1]) == Specials(s[..k]) + if Special(s[k]) then 1 else 0
  {
    assert s[..k + 1][..k] == s[..k];
  }

  /** The first pass counts. */
  method CountSpecials(s: Data) returns (n: nat)
    ensures n == Specials(s)
  {
    n := 0;
    for i := 0 to |s|
      invariant n == Specials(s[..i])
    {
      EscapeSnoc(s, i);
      if Special(s[i]) { n := n + 1; }
    }
    assert s[..|s|] == s;
  }

  method PutEscaped(t: array<Byte>, j: nat, b: Byte) returns (next: nat)
    requires j + |EscapeByte(b)| <= t.Length
    modifies t
    ensures next == j + |EscapeByte(b)|
    ensures t[..next] == old(t[..j]) + EscapeByte(b)
  {
    if Special(b) {
      t[j] := ANTISLASH;
      t[j + 1] := b;
      next := j + 2;
    } else {
      t[j] := b;
      next := j + 1;
    }
  }

  /** The second pass fills a buffer of exactly the size that was counted. */
  method FillEscaped(s: Data, t: array<Byte>)
    requires t.Length == |s| + Specials(s)
    modifies t
    ensures t[..] == Escape(s)
  {
    var j: nat := 0;
    for i := 0 to |s|
      invariant j == i + Specials(s[..i]) <= t.Length
      invariant t[..j] == Escape(s[..i])
    {
      EscapeSnoc(s, i);
      SpecialsGrow(s, i + 1);
      j := PutEscaped(t, j, s[i]);
    }
    assert s[..|s|] == s;
    assert t[..j] == t[..];
  }

  /** escapeSDParam: a string without special bytes is returned as it is. */
  method EscapeSDParam(s: Data) returns (r: Data)
    ensures r == Escape(s)
  {
    var escapeCount := CountSpecials(s);
    if escapeCount == 0 {
      NothingToEscape(s);
      return s;
    }
    var t := new Byte[|s| + escapeCount];
    FillEscaped(s, t);
    return t[..];
  }

  /** What a value means: section 6.3.3 of RFC 5424. */
  function Unescape(t: Data): Data {
    if t == [] then []
    else if t[0] == ANTISLASH && |t| >= 2 && Special(t[1]) then [t[1]] + Unescape(t[2..])
    else [t[0]] + Unescape(t[1..])
  }

  lemma {:induction false} EscapeHead(s: Data)
    requires s != []
    ensures Escape(s) == EscapeByte(s[0]) + Escape(s[1..])
  {
    var k := |s| - 1;
    if k == 0 {
      assert s[..0] == [] && s[1..] == [];
    } else {
      EscapeHead(s[..k]);
      assert s[..k][1..] == s[1..][..k - 1];
    }
  }

  lemma {:induction false} UnescapeUndoes(s: Data)
    ensures Unescape(Escape(s)) == s
  {
    if s == [] {
    } else {
      EscapeHead(s);
      UnescapeUndoes(s[1..]);
      var t := Escape(s);
      if Special(s[0]) {
        assert t[2..] == Escape(s[1..]);
      } else {
        assert t[1..] == Escape(s[1..]);
      }
      assert s == [s[0]] + s[1..];
    }
  }

  /** Different values are printed differently. */
  lemma EscapeInjective(s: Data, t: Data)
    requires Escape(s) == Escape(t)
    ensures s == t
  {
    UnescapeUndoes(s);
    UnescapeUndoes(t);
  }

  // ----------------------------------------------------------- the grammar

  /** The longest front of a string that belongs to a class. */
  function Span(cls: Byte -> bool, d: Data): (k: nat)
    ensures k <= |d|
  {
    if d == [] || !cls(d[0]) then 0 else 1 + Span(cls, d[1..])
  }

  /** One or more. */
  function Many(cls: Byte -> bool, d: Data): (r: Read<Data>)
    ensures r.Got? ==> |r.rest| < |d|
  {
    var k := Span(cls, d);
    if k == 0 then Bad else Got(d[..k], d[k..])
  }

  function Expect(b: Byte, d: Data): (r: Read<()>)
    ensures r.Got? ==> |r.rest| < |d|
  {
    if d == [] || d[0] != b then Bad else Got((), d[1..])
  }

  function IsSpace(b: Byte): bool { b == SP }

  /** The text of a value; a backslash must precede a backslash, a quote or a bracket. */
  function ValueLength(d: Data): (r: Option<nat>)
    ensures r.Some? ==> r.value <= |d|
  {
    if d == [] || d[0] == QUOTE || d[0] == CLOSE then Some(0)
    else if d[0] == ANTISLASH then
      if |d| < 2 || !Special(d[1]) then None
      else
        match ValueLength(d[2..])
        case None => None
        case Some(k) => Some(k + 2)
    else
      match ValueLength(d[1..])
      case None => None
      case Some(k) => Some(k + 1)
  }

  function ParamValue(d: Data): (r: Read<Data>)
    ensures r.Got? ==> |r.rest| <= |d|
  {
    match ValueLength(d)
    case None => Bad
    case Some(k) => Got(d[..k], d[k..])
  }

  /** param: a name, an equal sign and a quoted value. */
  function Param(d: Data): (r: Read<(Data, Data)>)
    ensures r.Got? ==> |r.rest| < |d|
  {
    var name :- Many(NameChar, d);
    var equal :- Expect(EQUAL, name.1);
    var opening :- Expect(QUOTE, equal.1);
    var value :- ParamValue(opening.1);
    var closing :- Expect(QUOTE, value.1);
    Got((name.0, value.0), closing.1)
  }

  /** The parameters of an element and its closing bracket. */
  function Params(d: Data): (r: Read<Listing<Data>>)
    ensures r.Got? ==> |r.rest| < |d|
    decreases |d|
  {
    if d != [] && d[0] == SP then
      var p :- Param(d[1..]);
      var more :- Params(p.1);
      Got([p.0] + more.0, more.1)
    else
      var closing :- Expect(CLOSE, d);
      Got([], closing.1)
  }

  type Elements = Listing<Listing<Data>>

  function Element(d: Data): (r: Read<(Data, Listing<Data>)>)
    ensures r.Got? ==> |r.rest| < |d|
  {
    var opening :- Expect(OPEN, d);
    var sid :- Many(NameChar, opening.1);
    var params :- Params(sid.1);
    Got((sid.0, params.0), params.1)
  }

  /** Elements for as long as there is an opening bracket. */
  function ElementsOf(d: Data): Read<Elements>
    decreases |d|
  {
    if d == [] || d[0] != OPEN then Got([], d)
    else
      var e :- Element(d);
      var more :- ElementsOf(e.1);
      Got([e.0] + more.0, more.1)
  }

  function Structured(d: Data): Read<Elements> {
    if d != [] && d[0] == HYPHEN then Got([], d[1..])
    else if d != [] && d[0] == OPEN then ElementsOf(d)
    else Bad
  }

  /** A printable character that is none of the grammar's own. */
  predicate Ascii(b: Byte) {
    && Printable(b) && !IsDigit(b) && b != QUOTE && b != PLUS && b != HYPHEN && b != DOT && b != COLON
    && b != LESS && b != EQUAL && b != MORE && b != OPEN && b != ANTISLASH && b != CLOSE
  }

  predicate TwoDigits(d: Data, i: nat)
    requires i + 2 <= |d|
  {
    IsDigit(d[i]) && IsDigit(d[i + 1])
  }

  /** YYYY-MM-DD, a letter, HH:MM:SS. */
  predicate DateTime(d: Data)
    requires |d| >= 19
  {
    && TwoDigits(d, 0) && TwoDigits(d, 2) && d[4] == HYPHEN && TwoDigits(d, 5) && d[7] == HYPHEN
    && TwoDigits(d, 8) && Ascii(d[10]) && TwoDigits(d, 11) && d[13] == COLON && TwoDigits(d, 14)
    && d[16] == COLON && TwoDigits(d, 17)
  }

  /** The digits after a dot. */
  function Fraction(d: Data): Option<nat> {
    if d == [] || d[0] != DOT then Some(0)
    else if Span(IsDigit, d[1..]) == 0 then None
    else Some(1 + Span(IsDigit, d[1..]))
  }

  /** A letter, or a sign and an offset. */
  function Zone(d: Data): Option<nat> {
    if d == [] then None
    else if Ascii(d[0]) then Some(1)
    else if |d| >= 6 && (d[0] == PLUS || d[0] == HYPHEN) && TwoDigits(d, 1) && d[3] == COLON && TwoDigits(d, 4)
    then Some(6)
    else None
  }

  function Timestamp(d: Data): Read<Data> {
    if |d| < 19 || !DateTime(d) then Bad
    else
      match Fraction(d[19..])
      case None => Bad
      case Some(f) =>
        if 19 + f > |d| then Bad
        else
          match Zone(d[19 + f..])
          case None => Bad
          case Some(z) =>
            var k := 19 + f + z;
            if k > |d| then Bad else Got(d[..k], d[k..])
  }

  /** Header fields, each followed by one or more spaces. */
  function Fields(n: nat, d: Data): (r: Read<seq<Data>>)
    ensures r.Got? ==> |r.value| == n
    decreases n
  {
    if n == 0 then Got([], d)
    else
      var f :- Many(Printable, d);
      var sp :- Many(IsSpace, f.1);
      var more :- Fields(n - 1, sp.1);
      Got([f.0] + more.0, more.1)
  }

  const HEADER_FIELDS: nat := 4

  /** The text of every part of a message. */
  datatype Tree = Tree(
    pri: Data, version: Data, stamp: Data, host: Data, app: Data, proc: Data, msgid: Data,
    elements: Elements, msg: Option<Data>)

  datatype Prefix = Prefix(pri: Data, version: Data, stamp: Data)

  function Preamble(d: Data): Read<Prefix> {
    var less :- Expect(LESS, d);
    var pri :- Many(IsDigit, less.1);
    var more :- Expect(MORE, pri.1);
    var version :- Many(IsDigit, more.1);
    var sp :- Many(IsSpace, version.1);
    var stamp :- Timestamp(sp.1);
    var end :- Many(IsSpace, stamp.1);
    Got(Prefix(pri.0, version.0, stamp.0), end.1)
  }

  /** What follows the structured data: nothing, or spaces and a text that takes the rest. */
  function Ending(d: Data): Option<Option<Data>> {
    if d == [] then Some(None)
    else if d[0] != SP then None
    else Some(Some(d[Span(IsSpace, d)..]))
  }

  function Full(d: Data): Option<Tree> {
    match Preamble(d)
    case Bad => None
    case Got(p, d1) =>
      match Fields(HEADER_FIELDS, d1)
      case Bad => None
      case Got(f, d2) =>
        match Structured(d2)
        case Bad => None
        case Got(elements, d3) =>
          match Ending(d3)
          case None => None
          case Some(msg) =>
            Some(Tree(p.pri, p.version, p.stamp, f[0], f[1], f[2], f[3], elements, msg))
  }
}
