/** RELP lines: TXNR COMMAND DATALEN[ DATA]LF (utils/split.go, encoders/encoder.go). */
module RelpFraming {
  import opened Bytes
  import opened Decimal
  import Listings
  import opened Scanner
  import opened Text

  const LF: Byte := 10
  const SPACE: Byte := 32
  const SEPS: set<Byte> := {32, 13, 10, 9}
  const FIELDS: nat := 3

  /** The first fields of a string and the number of bytes they span. */
  datatype Fields = Fields(fields: seq<Data>, advance: nat)

  /** The next field: none, one that ends the string, or one that ends at a blank. */
  datatype Cut = NoField | LastField(field: Data) | Next(field: Data, used: nat)

  function NextField(s: Data, seps: set<Byte>): (c: Cut)
    ensures c.Next? ==> c.used <= |s|
  {
    var t := TrimLeft(s, seps);
    if t == [] then NoField
    else
      var k := IndexAny(t, seps);
      if k < 0 then LastField(t) else Next(t[..k], |s| - |t| + k)
  }

  /** A way of finding the next field. */
  type Cutter = next: Data -> Cut | Within(next) ghost witness (d: Data) => NoField

  ghost predicate Within(next: Data -> Cut) { forall d :: next(d).Next? ==> next(d).used <= |d| }

  /** At most n more fields: blanks, then a field up to the next blank or the end. */
  function FieldsBy(next: Cutter, s: Data, n: nat): (r: Fields)
    ensures r.advance <= |s|
    decreases n
  {
    if n == 0 then Fields([], 0)
    else
      match next(s)
      case NoField => Fields([], |s|)
      case LastField(f) => Fields([f], |s|)
      case Next(f, used) =>
        var r := FieldsBy(next, s[used..], n - 1);
        Fields([f] + r.fields, used + r.advance)
  }

  function NextBlank(s: Data): (c: Cut)
    ensures c.Next? ==> c.used <= |s|
  {
    NextField(s, SEPS)
  }

  function FieldsOf(s: Data, n: nat): (r: Fields)
    ensures r.advance <= |s|
  {
    FieldsBy(NextBlank, s, n)
  }

  function Count(s: Data, b: Byte): nat {
    if s == [] then 0 else Count(s[..|s| - 1], b) + if s[|s| - 1] == b then 1 else 0
  }

  /** NFields: -1 asks for one field more than there are spaces. */
  function Limit(s: Data, n: int): nat {
    if n == -1 then Count(s, SPACE) + 1 else if n < 0 then 0 else n
  }

  method NFields(s: Data, n: int) returns (fields: seq<Data>, advance: nat)
    ensures Fields(fields, advance) == FieldsOf(s, Limit(s, n))
  {
    if n == 0 { return [], 0; }
    var limit := if n == -1 then Count(s, SPACE) + 1 else n;
    fields, advance := CutFields(NextBlank, s, if limit < 0 then 0 else limit);
  }

  /** The fields found so far, and those still to come. */
  function CutOn(next: Cutter, s: Data, n: nat, fields: seq<Data>, advance: nat): Fields
    decreases n
  {
    if n == 0 then Fields(fields, advance)
    else
      match next(s)
      case NoField => Fields(fields, advance + |s|)
      case LastField(f) => Fields(fields + [f], advance + |s|)
      case Next(f, used) => CutOn(next, s[used..], n - 1, fields + [f], advance + used)
  }

  lemma {:induction false} CutOnIs(next: Cutter, s: Data, n: nat, fields: seq<Data>, advance: nat)
    ensures
      var r := FieldsBy(next, s, n);
      CutOn(next, s, n, fields, advance) == Fields(fields + r.fields, advance + r.advance)
    decreases n
  {
    if n == 0 || next(s).NoField? {
      assert fields + [] == fields;
    } else if next(s).Next? {
      var f, used := next(s).field, next(s).used;
      CutOnIs(next, s[used..], n - 1, fields + [f], advance + used);
      var q := FieldsBy(next, s[used..], n - 1).fields;
      assert fields + ([f] + q) == (fields + [f]) + q;
    }
  }

  /** The loop of NFields. */
  method CutFields(next: Cutter, s: Data, limit: nat) returns (fields: seq<Data>, advance: nat)
    ensures Fields(fields, advance) == FieldsBy(next, s, limit)
  {
    fields, advance := [], 0;
    var rest, over := s, false;
    ghost var goal, left := CutOn(next, s, limit, [], 0), limit;
    while |fields| < limit && !over
      invariant |fields| + left == limit || over
      invariant if over then Fields(fields, advance) == goal else CutOn(next, rest, left, fields, advance) == goal
      decreases left, !over
    {
      var c := next(rest);
      if c.Next? {
        fields, advance, rest, left := fields + [c.field], advance + c.used, rest[c.used..], left - 1;
      } else {
        fields := if c.NoField? then fields else fields + [c.field];
        advance, over := advance + |rest|, true;
      }
    }
    CutOnIs(next, s, limit, [], 0);
    assert [] + FieldsBy(next, s, limit).fields == FieldsBy(next, s, limit).fields;
  }

  /** The length of the white space character of Unicode that a string starts with, or 0. */
  function SpaceAtStart(d: Data): (n: nat)
    ensures n <= |d|
  {
    if |d| >= 1 && (9 <= d[0] <= 13 || d[0] == 32) then 1
    else if |d| >= 2 && d[0] == 0xC2 && d[1] in {0x85, 0xA0} then 2
    else if |d| >= 3 && Wide(d[0], d[1], d[2]) then 3
    else 0
  }

  /** The same at the end of a string. */
  function SpaceAtEnd(d: Data): (n: nat)
    ensures n <= |d|
  {
    var k := |d|;
    if k >= 1 && (9 <= d[k - 1] <= 13 || d[k - 1] == 32) then 1
    else if k >= 2 && d[k - 2] == 0xC2 && d[k - 1] in {0x85, 0xA0} then 2
    else if k >= 3 && Wide(d[k - 3], d[k - 2], d[k - 1]) then 3
    else 0
  }

  /** The white space of three bytes: U+1680, U+2000 to U+200A, U+2028, U+2029, U+202F, U+205F, U+3000. */
  predicate Wide(a: Byte, b: Byte, c: Byte) {
    || (a == 0xE1 && b == 0x9A && c == 0x80)
    || (a == 0xE2 && b == 0x80 && (0x80 <= c <= 0x8A || c in {0xA8, 0xA9, 0xAF}))
    || (a == 0xE2 && b == 0x81 && c == 0x9F)
    || (a == 0xE3 && b == 0x80 && c == 0x80)
  }

  function DropSpaces(d: Data): (r: Data)
    ensures |r| <= |d|
  {
    if SpaceAtStart(d) == 0 then d else DropSpaces(d[SpaceAtStart(d)..])
  }

  function ChopSpaces(d: Data): (r: Data)
    ensures |r| <= |d|
  {
    if SpaceAtEnd(d) == 0 then d else ChopSpaces(d[..|d| - SpaceAtEnd(d)])
  }

  /** bytes.TrimSpace. */
  function TrimSpace(d: Data): Data {
    ChopSpaces(DropSpaces(d))
  }

  lemma {:induction false} DropSpacesLine(d: Data)
    ensures DropSpaces(d + [LF]) == if DropSpaces(d) == [] then [] else DropSpaces(d) + [LF]
  {
    var e := d + [LF];
    assert SpaceAtStart(d) == if d == [] then 0 else SpaceAtStart(e);
    if d == [] {
      assert e == [LF] && e[1..] == [];
    } else if SpaceAtStart(d) != 0 {
      var k := SpaceAtStart(d);
      assert e[k..] == d[k..] + [LF];
      DropSpacesLine(d[k..]);
    }
  }

  /** The line feed at the end of a frame never shows in the data. */
  lemma TrimLine(d: Data)
    ensures TrimSpace(d + [LF]) == TrimSpace(d)
  {
    DropSpacesLine(d);
    var t := DropSpaces(d);
    if t != [] {
      assert SpaceAtEnd(t + [LF]) == 1;
      assert (t + [LF])[..|t|] == t;
    }
  }

  /** RelpSplit once the three fields are there; sums that leave 64 bits and short negative lengths break the slicing. */
  function Answer(data: Data, f: Fields): Split
    requires |f.fields| == 3 && f.advance < |data|
  {
    var txnr, datalen := Atoi(f.fields[0]), Atoi(f.fields[2]);
    var start := f.fields[0] + [SPACE] + f.fields[1];
    if txnr.None? || datalen.None? then Fail
    else if datalen.value == 0 then Token(f.advance, start)
    else
      var advance := f.advance + datalen.value + 2;
      if datalen.value < -1 || !IsInt64(advance) then Fail
      else if |data| < advance then Need
      else Token(advance, start + [SPACE] + TrimSpace(data[f.advance + 1..advance]))
  }

  function RelpCut(data: Data): Split {
    var f := FieldsOf(data, FIELDS);
    if |f.fields| < 3 || f.advance == |data| then Need else Answer(data, f)
  }

  lemma {:induction false} FieldsCount(s: Data, n: nat)
    ensures |FieldsOf(s, n).fields| <= n
    decreases n
  {
    if n == 0 || !NextBlank(s).Next? {
    } else {
      FieldsCount(s[NextBlank(s).used..], n - 1);
    }
  }

  lemma NextUsed(s: Data, seps: set<Byte>)
    ensures NextField(s, seps).Next? ==> NextField(s, seps).used > 0
  {
    var t := TrimLeft(s, seps);
    IndexFirst(t, seps);
    TrimmedStart(s, seps);
  }

  lemma FieldsSpan(s: Data, n: nat)
    requires n > 0 && |FieldsOf(s, n).fields| == n
    ensures FieldsOf(s, n).advance > 0
  {
    NextUsed(s, SEPS);
    if NextField(s, SEPS).LastField? { assert s != [] by { assert TrimLeft([], SEPS) == []; } }
  }

  lemma NextStays(s: Data, seps: set<Byte>, x: Data)
    requires NextField(s, seps).Next?
    ensures NextField(s + x, seps) == NextField(s, seps)
  {
    var t := TrimLeft(s, seps);
    var k := IndexAny(t, seps);
    TrimLeftAppend(s, seps, x);
    IndexStays(t, seps, x);
    assert (t + x)[..k] == t[..k];
  }

  /** Fields that are followed by a blank are complete: more input does not change them. */
  lemma {:induction false} FieldsStay(s: Data, n: nat, x: Data)
    requires |FieldsOf(s, n).fields| == n && FieldsOf(s, n).advance < |s|
    ensures FieldsOf(s + x, n) == FieldsOf(s, n)
    decreases n
  {
    if n == 0 {
    } else {
      NextStays(s, SEPS, x);
      var used := NextField(s, SEPS).used;
      assert (s + x)[used..] == s[used..] + x;
      FieldsStay(s[used..], n - 1, x);
    }
  }

  /** A RELP frame is never cut differently because more has been read. */
  lemma RelpStable()
    ensures Stable(RelpCut)
  {
    forall d: Data ensures RelpCut(d).Token? ==> 0 < RelpCut(d).advance <= |d| {
      FieldsCount(d, FIELDS);
      if RelpCut(d).Token? { FieldsSpan(d, FIELDS); }
    }
    forall d: Data, x: Data | !RelpCut(d).Need?
      ensures RelpCut(d + x) == RelpCut(d)
    {
      FieldsCount(d, FIELDS);
      FieldsStay(d, FIELDS, x);
      AnswerStays(d, FieldsOf(d, FIELDS), x);
    }
    assert TrimLeft([], SEPS) == [];
    assert forall d :: !RelpCut(d).Skip?;
  }

  lemma AnswerStays(d: Data, f: Fields, x: Data)
    requires |f.fields| == 3 && f.advance < |d| && !Answer(d, f).Need?
    ensures Answer(d + x, f) == Answer(d, f)
  {
    var n := Atoi(f.fields[2]);
    if n.Some? && n.value >= -1 && f.advance + n.value + 2 <= |d| {
      SliceStays(d, x, f.advance + 1, f.advance + n.value + 2);
    }
  }

  /** A frame as the client sends it. */
  datatype Frame = Frame(txnr: int, command: Data, data: Data)

  predicate Sendable(f: Frame) {
    IsInt32(f.txnr) && f.command != [] && Without(f.command, SEPS) && IsInt64(1 + |Encode(f)|)
  }

  /** The three fields every frame starts with. */
  function Start(f: Frame): Data {
    IntText(f.txnr) + [SPACE] + f.command + [SPACE] + Digits(|f.data|)
  }

  /** What follows them. */
  function Tail(f: Frame): Data {
    if f.data == [] then [LF] else [SPACE] + f.data + [LF]
  }

  /** RELPEncode. */
  function Encode(f: Frame): Data {
    Start(f) + Tail(f)
  }

  /** The token that stands for a frame. */
  function TokenOf(f: Frame): Data {
    IntText(f.txnr) + [SPACE] + f.command + if f.data == [] then [] else [SPACE] + TrimSpace(f.data)
  }

  predicate Blank(d: Data) { TrimLeft(d, SEPS) == [] }

  lemma FieldStep(lead: Data, a: Data, rest: Data, n: nat)
    requires Blank(lead) && a != [] && Without(a, SEPS) && rest != [] && rest[0] in SEPS && n > 0
    ensures
      var r := FieldsOf(rest, n - 1);
      FieldsOf(lead + a + rest, n) == Fields([a] + r.fields, |lead| + |a| + r.advance)
  {
    NextIs(lead, a, rest, SEPS);
    assert (lead + a + rest)[|lead| + |a|..] == rest;
  }

  lemma NextIs(lead: Data, a: Data, rest: Data, seps: set<Byte>)
    requires TrimLeft(lead, seps) == [] && a != [] && Without(a, seps) && rest != [] && rest[0] in seps
    ensures NextField(lead + a + rest, seps) == Next(a, |lead| + |a|)
  {
    var t := a + rest;
    assert lead + a + rest == lead + t;
    TrimLeftAppend(lead, seps, t);
    assert t[0] == a[0];
    assert t[..|a|] == a && t[|a|] == rest[0];
    IndexIs(t, seps, |a|);
  }

  lemma NumberHasNoBlank(n: int)
    ensures Without(IntText(n), SEPS)
  {
    var d := IntText(n);
    forall i | 0 <= i < |d| ensures d[i] !in SEPS {
      if n < 0 {
        if i > 0 { assert d[i] == Digits(-n)[i - 1] && IsDigit(d[i]); }
      } else {
        assert IsDigit(Digits(n)[i]);
      }
    }
  }

  lemma OneField(c: Data, rest: Data, n: nat)
    requires n == 1
    requires c != [] && Without(c, SEPS) && rest != [] && rest[0] in SEPS
    ensures FieldsOf([SPACE] + c + rest, n) == Fields([c], 1 + |c|)
  {
    assert [SPACE][1..] == [];
    FieldStep([SPACE], c, rest, n);
    assert [c] + [] == [c];
  }

  lemma TwoFields(b: Data, c: Data, rest: Data, n: nat)
    requires n == 2
    requires b != [] && Without(b, SEPS)
    requires c != [] && Without(c, SEPS) && rest != [] && rest[0] in SEPS
    ensures FieldsOf([SPACE] + b + ([SPACE] + c + rest), n) == Fields([b, c], 2 + |b| + |c|)
  {
    assert [SPACE][1..] == [];
    OneField(c, rest, n - 1);
    FieldStep([SPACE], b, [SPACE] + c + rest, n);
    assert [b] + [c] == [b, c];
  }

  lemma ThreeFields(lead: Data, a: Data, b: Data, c: Data, rest: Data, n: nat)
    requires n == 3
    requires Blank(lead) && a != [] && Without(a, SEPS) && b != [] && Without(b, SEPS)
    requires c != [] && Without(c, SEPS) && rest != [] && rest[0] in SEPS
    ensures
      FieldsOf(lead + a + ([SPACE] + b + ([SPACE] + c + rest)), n)
      == Fields([a, b, c], |lead| + 2 + |a| + |b| + |c|)
  {
    TwoFields(b, c, rest, n - 1);
    FieldStep(lead, a, [SPACE] + b + ([SPACE] + c + rest), n);
    assert [a] + [b, c] == [a, b, c];
  }

  lemma FrameFields(lead: Data, f: Frame, rest: Data)
    requires Blank(lead) && Sendable(f) && rest != [] && rest[0] in SEPS
    ensures
      FieldsOf(lead + Start(f) + rest, FIELDS)
      == Fields([IntText(f.txnr), f.command, Digits(|f.data|)], |lead| + |Start(f)|)
  {
    var a, b, c := IntText(f.txnr), f.command, Digits(|f.data|);
    NumberHasNoBlank(f.txnr);
    NumberHasNoBlank(|f.data|);
    ThreeFields(lead, a, b, c, rest, FIELDS);
    RegroupFields(lead, a, [SPACE], b, c, rest);
  }

  /** The bytes a frame takes up: the line feed after an empty frame is left for the next one. */
  function Taken(f: Frame): nat {
    if f.data == [] then |Start(f)| else |Encode(f)|
  }

  lemma DataSlice(before: Data, data: Data, rest: Data)
    ensures
      (before + ([SPACE] + data + [LF] + rest))[|before| + 1..|before| + |data| + 2] == data + [LF]
  {
    var d := before + ([SPACE] + data + [LF] + rest);
    assert d == before + [SPACE] + (data + [LF]) + rest;
  }

  lemma AnswerEmpty(d: Data, f: Fields, txnr: int)
    requires |f.fields| == 3 && f.advance < |d|
    requires Atoi(f.fields[0]) == Some(txnr) && Atoi(f.fields[2]) == Some(0)
    ensures Answer(d, f) == Token(f.advance, f.fields[0] + [SPACE] + f.fields[1])
  {
  }

  lemma AnswerFull(d: Data, f: Fields, txnr: int, data: Data)
    requires |f.fields| == 3 && f.advance + |data| + 2 <= |d| && data != []
    requires Atoi(f.fields[0]) == Some(txnr) && Atoi(f.fields[2]) == Some(|data|)
    requires IsInt64(f.advance + |data| + 2) && d[f.advance + 1..f.advance + |data| + 2] == data + [LF]
    ensures
      Answer(d, f)
      == Token(f.advance + |data| + 2, f.fields[0] + [SPACE] + f.fields[1] + [SPACE] + TrimSpace(data))
  {
    TrimLine(data);
  }

  lemma TokenShape(f: Frame)
    ensures
      var start := IntText(f.txnr) + [SPACE] + f.command;
      TokenOf(f) == if f.data == [] then start else start + [SPACE] + TrimSpace(f.data)
  {
    var start := IntText(f.txnr) + [SPACE] + f.command;
    assert start + [] == start;
    assert start + ([SPACE] + TrimSpace(f.data)) == start + [SPACE] + TrimSpace(f.data);
  }

  lemma RecognisedEmpty(d: Data, f: Frame, r: Fields)
    requires Sendable(f) && f.data == [] && r.advance < |d|
    requires r.fields == [IntText(f.txnr), f.command, Digits(0)]
    ensures Answer(d, r) == Token(r.advance, TokenOf(f))
  {
    AtoiInt(f.txnr);
    AtoiDigits(0);
    AnswerEmpty(d, r, f.txnr);
    TokenShape(f);
  }

  lemma RecognisedFull(d: Data, f: Frame, r: Fields, rest: Data)
    requires Sendable(f) && f.data != [] && |d| == r.advance + |f.data| + 2 + |rest|
    requires d[r.advance + 1..r.advance + |f.data| + 2] == f.data + [LF]
    requires IsInt64(r.advance + |f.data| + 2)
    requires r.fields == [IntText(f.txnr), f.command, Digits(|f.data|)]
    ensures Answer(d, r) == Token(r.advance + |f.data| + 2, TokenOf(f))
  {
    AtoiInt(f.txnr);
    AtoiDigits(|f.data|);
    AnswerFull(d, r, f.txnr, f.data);
    TokenShape(f);
  }

  lemma Recognised(d: Data, f: Frame, r: Fields, before: Data, rest: Data)
    requires Sendable(f) && d == before + (Tail(f) + rest) && IsInt64(|before| + |Tail(f)|)
    requires r == Fields([IntText(f.txnr), f.command, Digits(|f.data|)], |before|)
    ensures Answer(d, r) == Token(|before| + if f.data == [] then 0 else |Tail(f)|, TokenOf(f))
  {
    if f.data == [] {
      RecognisedEmpty(d, f, r);
    } else {
      DataSlice(before, f.data, rest);
      RecognisedFull(d, f, r, rest);
    }
  }

  /** Trimming leaves alone exactly the data without white space at either end. */
  lemma TrimSpaceKeeps(d: Data)
    ensures TrimSpace(d) == d <==> SpaceAtStart(d) == 0 && SpaceAtEnd(d) == 0
  {
    if SpaceAtStart(d) != 0 {
      assert |DropSpaces(d)| <= |d[SpaceAtStart(d)..]| < |d|;
    } else if SpaceAtEnd(d) != 0 {
      assert |ChopSpaces(d)| <= |d[..|d| - SpaceAtEnd(d)]| < |d|;
    }
  }

  /** A frame with its data as it was. */
  function Untrimmed(f: Frame): Data {
    IntText(f.txnr) + [SPACE] + f.command + if f.data == [] then [] else [SPACE] + f.data
  }

  lemma TokenKeeps(f: Frame)
    ensures TokenOf(f) == Untrimmed(f) <==> SpaceAtStart(f.data) == 0 && SpaceAtEnd(f.data) == 0
  {
    TrimSpaceKeeps(f.data);
    if f.data != [] {
      var k := |IntText(f.txnr) + [SPACE] + f.command| + 1;
      assert TokenOf(f)[k..] == TrimSpace(f.data) && Untrimmed(f)[k..] == f.data;
    }
  }

  /** A frame is recognised whatever blanks precede it and whatever follows it. */
  lemma FrameIsRead(lead: Data, f: Frame, rest: Data)
    requires Blank(lead) && Sendable(f) && IsInt64(|lead| + |Encode(f)|)
    ensures RelpCut(lead + Encode(f) + rest) == Token(|lead| + Taken(f), TokenOf(f))
  {
    var r := Tail(f) + rest;
    assert lead + Encode(f) + rest == lead + Start(f) + r;
    assert r[0] in SEPS;
    FrameFields(lead, f, r);
    Recognised(lead + Start(f) + r, f, FieldsOf(lead + Start(f) + r, FIELDS), lead + Start(f), rest);
  }

  /** Its data comes back trimmed, and unchanged exactly when it has no white space at either end. */
  lemma RelpRoundTrip(lead: Data, f: Frame, rest: Data)
    requires Blank(lead) && Sendable(f) && IsInt64(|lead| + |Encode(f)|)
    ensures RelpCut(lead + Encode(f) + rest) == Token(|lead| + Taken(f), TokenOf(f))
    ensures
      RelpCut(lead + Encode(f) + rest) == Token(|lead| + Taken(f), Untrimmed(f))
      <==> SpaceAtStart(f.data) == 0 && SpaceAtEnd(f.data) == 0
  {
    FrameIsRead(lead, f, rest);
    TokenKeeps(f);
  }

  /** The part of a frame that is left unread: the line feed of an empty frame. */
  function After(f: Frame): Data { if f.data == [] then [LF] else [] }

  predicate LineStart(lead: Data) { lead == [] || lead == [LF] }

  lemma LineStartBlank(lead: Data)
    requires LineStart(lead)
    ensures Blank(lead) && RelpCut(lead).Need?
  {
    assert [LF][1..] == [];
  }

  lemma RestOf(lead: Data, f: Frame, more: Data)
    ensures
      (lead + Encode(f) + more)[|lead| + Taken(f)..] == After(f) + more
  {
    assert lead + Encode(f) + more == lead + Start(f) + (Tail(f) + more);
  }

  /** One frame off the front: what remains starts with the line feed of an empty frame. */
  lemma OneFrame(lead: Data, f: Frame, more: Data)
    requires LineStart(lead) && Sendable(f)
    ensures
      Drain(RelpCut, lead + Encode(f) + more)
      == Prefixed(TokenOf(f), Drain(RelpCut, After(f) + more))
  {
    var d := lead + Encode(f) + more;
    LineStartBlank(lead);
    FrameIsRead(lead, f, more);
    DrainToken(RelpCut, d);
    RestOf(lead, f, more);
  }

  lemma FrameTakenOff(f: Frame)
    requires Sendable(f)
    ensures TakenOff(RelpCut, LineStart, Encode, TokenOf, After, f)
  {
    forall lead, x | LineStart(lead)
      ensures Drain(RelpCut, lead + Encode(f) + x) == Prefixed(TokenOf(f), Drain(RelpCut, After(f) + x))
    {
      OneFrame(lead, f, x);
    }
  }

  /**
    A stream of RELP frames is read back frame by frame, in order, however it is cut up. What is left
    is the line feed of the last frame when that has no data.
    */
  lemma RelpStream(fs: seq<Frame>, pieces: seq<Data>)
    requires forall i :: 0 <= i < |fs| ==> Sendable(fs[i])
    requires Concat(pieces) == Listings.Concat(Encode, fs)
    ensures Scan(RelpCut, pieces) == Scanned(Tokens(TokenOf, fs), Unread(After, [], fs), false)
  {
    forall i | 0 <= i < |fs| ensures TakenOff(RelpCut, LineStart, Encode, TokenOf, After, fs[i]) {
      FrameTakenOff(fs[i]);
    }
    forall l | LineStart(l) ensures RelpCut(l).Need? { LineStartBlank(l); }
    ShiftedFramesComeOut(RelpCut, LineStart, Encode, TokenOf, After, [], fs);
    assert [] + Listings.Concat(Encode, fs) == Concat(pieces);
    RelpStable();
    ChunksDoNotMatter(RelpCut, pieces);
  }
}
