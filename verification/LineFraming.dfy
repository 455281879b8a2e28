/** Syslog over TCP, one message per line, with a configured delimiter (makeLFTCPSplit in services/network/tcp.go). */
module LineFraming {
  import opened Bytes
  import opened Scanner
  import opened Text
  import opened TcpFraming

  /** The bytes up to the delimiter, which must not come first. */
  function LineCut(delim: Byte, data: Data): Split {
    var t := TrimLeft(data, BLANK);
    var lf := IndexAny(t, {delim});
    if lf < 1 then Need else Token(|data| - |t| + lf + 1, Trim(t[..lf], BLANK))
  }

  function LineSplit(delim: Byte): Data -> Split {
    (data: Data) => LineCut(delim, data)
  }

  lemma LineCutStays(delim: Byte, d: Data, x: Data)
    requires !LineCut(delim, d).Need?
    ensures LineCut(delim, d + x) == LineCut(delim, d) && 0 < LineCut(delim, d).advance <= |d|
  {
    var t := TrimLeft(d, BLANK);
    var lf := IndexAny(t, {delim});
    TrimLeftAppend(d, BLANK, x);
    IndexStays(t, {delim}, x);
    assert (t + x)[..lf] == t[..lf];
  }

  lemma LineStable(delim: Byte)
    ensures Stable(LineSplit(delim))
  {
    forall d: Data, x: Data | !LineCut(delim, d).Need?
      ensures LineCut(delim, d + x) == LineCut(delim, d) && 0 < LineCut(delim, d).advance <= |d|
    {
      LineCutStays(delim, d, x);
    }
    forall d: Data | LineCut(delim, d).Token? ensures 0 < LineCut(delim, d).advance <= |d| {
      LineCutStays(delim, d, []);
    }
  }

  predicate IsBlank(p: Data) { TrimLeft(p, BLANK) == [] }

  /** The messages on the wire, each followed by the delimiter. */
  function Lines(delim: Byte, ps: seq<Data>): Data {
    if ps == [] then [] else ps[0] + ([delim] + Lines(delim, ps[1..]))
  }

  /** The messages that are not blank, trimmed. */
  function Texts(ps: seq<Data>): seq<Data> {
    if ps == [] then []
    else if IsBlank(ps[0]) then Texts(ps[1..])
    else [Trim(ps[0], BLANK)] + Texts(ps[1..])
  }

  /** What is read: a blank message is skipped together with a blank delimiter, and stops the stream at any other. */
  function Read(delim: Byte, ps: seq<Data>): seq<Data> {
    if ps == [] then []
    else if !IsBlank(ps[0]) then [Trim(ps[0], BLANK)] + Read(delim, ps[1..])
    else if delim in BLANK then Read(delim, ps[1..])
    else []
  }

  ghost predicate Sent(delim: Byte, ps: seq<Data>) {
    forall i :: 0 <= i < |ps| ==> delim !in ps[i]
  }

  lemma TrimTwice(d: Data)
    ensures TrimLeft(TrimLeft(d, BLANK), BLANK) == TrimLeft(d, BLANK)
  {
    TrimmedStart(d, BLANK);
  }

  lemma {:induction false} TrimLeftWithout(delim: Byte, p: Data)
    requires delim !in p
    ensures delim !in TrimLeft(p, BLANK)
  {
    if p == [] || p[0] !in BLANK {
    } else {
      TrimLeftWithout(delim, p[1..]);
    }
  }

  /** The blanks before a message, and its own, go. */
  lemma LeadTrimmed(lead: Data, p: Data, x: Data)
    requires IsBlank(lead)
    ensures TrimLeft(lead + (p + x), BLANK) == if IsBlank(p) then TrimLeft(x, BLANK) else TrimLeft(p, BLANK) + x
  {
    TrimLeftAppend(lead, BLANK, p + x);
    TrimLeftAppend(p, BLANK, x);
  }

  lemma DelimAfter(delim: Byte, t: Data, x: Data)
    requires delim !in t
    ensures IndexAny(t + ([delim] + x), {delim}) == |t| && (t + ([delim] + x))[..|t|] == t
  {
    var rest := t + ([delim] + x);
    assert rest[..|t|] == t && rest[|t|] == delim;
    IndexIs(rest, {delim}, |t|);
  }

  /** A message that is not blank comes out, whatever blanks come before it and whatever comes after it. */
  lemma TextIsRead(delim: Byte, lead: Data, p: Data, x: Data)
    requires IsBlank(lead) && !IsBlank(p) && delim !in p
    ensures LineCut(delim, lead + (p + ([delim] + x))) == Token(|lead| + |p| + 1, Trim(p, BLANK))
  {
    LeadTrimmed(lead, p, [delim] + x);
    TrimLeftWithout(delim, p);
    DelimAfter(delim, TrimLeft(p, BLANK), x);
    TrimTwice(p);
  }

  /** A blank message before a delimiter that is no blank: nothing comes out, whatever is read later. */
  lemma BlankStops(delim: Byte, lead: Data, p: Data, x: Data)
    requires IsBlank(lead) && IsBlank(p) && delim !in BLANK
    ensures LineCut(delim, lead + (p + ([delim] + x))).Need?
  {
    LeadTrimmed(lead, p, [delim] + x);
    DelimAfter(delim, [], x);
    assert [] + ([delim] + x) == [delim] + x;
  }

  lemma OneLine(delim: Byte, lead: Data, p: Data, x: Data)
    requires IsBlank(lead) && !IsBlank(p) && delim !in p
    ensures Drain(LineSplit(delim), lead + (p + ([delim] + x))) == Prefixed(Trim(p, BLANK), Drain(LineSplit(delim), x))
  {
    var f := lead + (p + [delim]);
    Regroup(lead, p, [delim], x);
    assert LineSplit(delim)(f + x) == Token(|f|, Trim(p, BLANK)) by { TextIsRead(delim, lead, p, x); }
    FrontToken(LineSplit(delim), f, Trim(p, BLANK), x);
  }

  lemma BlankGrows(delim: Byte, lead: Data, p: Data)
    requires IsBlank(lead) && IsBlank(p) && delim in BLANK
    ensures IsBlank(lead + (p + [delim]))
  {
    TrimLeftAppend(lead, BLANK, p + [delim]);
    TrimLeftAppend(p, BLANK, [delim]);
    assert [delim][1..] == [];
  }

  lemma BlankNeeds(delim: Byte, lead: Data)
    requires IsBlank(lead)
    ensures LineCut(delim, lead).Need?
  {
  }

  lemma {:induction false} LinesComeOut(delim: Byte, lead: Data, ps: seq<Data>)
    requires IsBlank(lead) && Sent(delim, ps)
    ensures
      var r := Drain(LineSplit(delim), lead + Lines(delim, ps));
      r.tokens == Read(delim, ps) && !r.failed
    decreases ps
  {
    if ps == [] {
      assert lead + Lines(delim, ps) == lead;
      BlankNeeds(delim, lead);
    } else {
      var p, rest := ps[0], Lines(delim, ps[1..]);
      assert delim !in p && Sent(delim, ps[1..]);
      if !IsBlank(p) {
        OneLine(delim, lead, p, rest);
        LinesComeOut(delim, [], ps[1..]);
        assert [] + rest == rest;
      } else if delim in BLANK {
        BlankGrows(delim, lead, p);
        LinesComeOut(delim, lead + (p + [delim]), ps[1..]);
        Regroup(lead, p, [delim], rest);
      } else {
        BlankStops(delim, lead, p, rest);
      }
    }
  }

  lemma LinesAlone(delim: Byte, ps: seq<Data>)
    requires Sent(delim, ps)
    ensures
      var r := Drain(LineSplit(delim), Lines(delim, ps));
      r.tokens == Read(delim, ps) && !r.failed
  {
    LinesComeOut(delim, [], ps);
    assert [] + Lines(delim, ps) == Lines(delim, ps);
  }

  /** Lines in any pieces: what is read, for any messages without the delimiter. */
  lemma LineStream(delim: Byte, ps: seq<Data>, pieces: seq<Data>)
    requires Sent(delim, ps) && Concat(pieces) == Lines(delim, ps)
    ensures Scan(LineSplit(delim), pieces).tokens == Read(delim, ps) && !Scan(LineSplit(delim), pieces).failed
  {
    LinesAlone(delim, ps);
    LineStable(delim);
    ScanIsDrain(LineSplit(delim), pieces, Lines(delim, ps));
  }

  /** The position of the first blank message, or the number of messages. */
  function FirstBlank(ps: seq<Data>): (n: nat)
    ensures n <= |ps|
    ensures forall i :: 0 <= i < n ==> !IsBlank(ps[i])
    ensures n < |ps| ==> IsBlank(ps[n])
  {
    if ps == [] || IsBlank(ps[0]) then 0 else 1 + FirstBlank(ps[1..])
  }

  lemma {:induction false} ReadAll(delim: Byte, ps: seq<Data>)
    ensures Read(delim, ps) == Texts(ps) <==> delim in BLANK || Texts(ps[FirstBlank(ps)..]) == []
  {
    if ps == [] {
    } else if IsBlank(ps[0]) {
      assert ps[0..] == ps;
      ReadAll(delim, ps[1..]);
    } else {
      ReadAll(delim, ps[1..]);
      assert ps[FirstBlank(ps)..] == ps[1..][FirstBlank(ps[1..])..];
      var a, b := Read(delim, ps[1..]), Texts(ps[1..]);
      assert [Trim(ps[0], BLANK)] + a == [Trim(ps[0], BLANK)] + b <==> a == b by {
        assert ([Trim(ps[0], BLANK)] + a)[1..] == a && ([Trim(ps[0], BLANK)] + b)[1..] == b;
      }
    }
  }

  /**
   Scanning the stream in any pieces yields every message that is not blank if
   and only if the delimiter is a blank or nothing but blank messages follow
   the first blank one.
   */
  lemma AllReadWhen(delim: Byte, ps: seq<Data>, pieces: seq<Data>)
    requires Sent(delim, ps) && Concat(pieces) == Lines(delim, ps)
    ensures Scan(LineSplit(delim), pieces).tokens == Texts(ps) <==> delim in BLANK || Texts(ps[FirstBlank(ps)..]) == []
  {
    LineStream(delim, ps, pieces);
    ReadAll(delim, ps);
  }
}
