/** Syslog over TCP: lines and counted octets in one stream (services/network/tcp.go). */
module TcpFraming {
  import opened Bytes
  import opened Decimal
  import opened Scanner
  import opened Text

  const LF: Byte := 10
  const CR: Byte := 13
  const SPACE: Byte := 32
  const ANGLE: Byte := 60

  const BLANK: set<Byte> := {SPACE, CR, LF}
  const STOP: set<Byte> := {SPACE, LF}

  /** getline: up to the next line feed, in data that does not start with a blank. */
  function Line(t: Data, trimmed: nat): Split {
    var lf := IndexAny(t, {LF});
    if lf <= 0 then Need else Token(lf + trimmed + 1, Trim(t[..lf], BLANK))
  }

  /** The end of a counted frame of n octets; sums that leave 64 bits and negative counts break the slicing. */
  function Counted(t: Data, trimmed: nat, sp: nat, n: int): Split
    requires sp < |t|
  {
    var advance := trimmed + sp + 1 + n;
    if n < 0 || !IsInt64(advance) then Fail
    else if trimmed + |t| < advance then Need
    else Trimmed(advance, t[sp + 1..sp + 1 + n])
  }

  /** A blank token is no token. */
  function Trimmed(advance: nat, payload: Data): Split {
    var token := Trim(payload, BLANK);
    if token == [] then Skip(advance) else Token(advance, token)
  }

  /** TcpSplit after the leading blanks. */
  function Cut(t: Data, trimmed: nat): Split
    requires t != []
  {
    if t[0] == ANGLE then Line(t, trimmed)
    else
      var sp := IndexAny(t, STOP);
      if sp <= 0 then Need
      else
        match Atoi(Trim(t[..sp], BLANK))
        case None => Line(t, trimmed)
        case Some(n) => Counted(t, trimmed, sp, n)
  }

  function TcpCut(data: Data): Split {
    var t := TrimLeft(data, BLANK);
    if t == [] then Need else Cut(t, |data| - |t|)
  }

  lemma LineStays(t: Data, trimmed: nat, x: Data)
    requires !Line(t, trimmed).Need?
    ensures Line(t + x, trimmed) == Line(t, trimmed)
  {
    IndexStays(t, {LF}, x);
    var lf := IndexAny(t, {LF});
    assert (t + x)[..lf] == t[..lf];
  }

  lemma CountedStays(t: Data, trimmed: nat, sp: nat, n: int, x: Data)
    requires sp < |t| && !Counted(t, trimmed, sp, n).Need?
    ensures Counted(t + x, trimmed, sp, n) == Counted(t, trimmed, sp, n)
  {
    if n >= 0 && IsInt64(trimmed + sp + 1 + n) {
      SliceStays(t, x, sp + 1, sp + 1 + n);
    }
  }

  lemma CutStays(t: Data, trimmed: nat, x: Data)
    requires t != [] && !Cut(t, trimmed).Need?
    ensures Cut(t + x, trimmed) == Cut(t, trimmed)
  {
    if t[0] == ANGLE {
      LineStays(t, trimmed, x);
    } else {
      var sp := IndexAny(t, STOP);
      IndexStays(t, STOP, x);
      assert (t + x)[..sp] == t[..sp];
      match Atoi(Trim(t[..sp], BLANK)) {
        case None => LineStays(t, trimmed, x);
        case Some(n) => CountedStays(t, trimmed, sp, n, x);
      }
    }
  }

  lemma CutAdvances(t: Data, trimmed: nat)
    requires t != []
    ensures Cut(t, trimmed).Token? ==> 0 < Cut(t, trimmed).advance <= trimmed + |t|
    ensures Cut(t, trimmed).Skip? ==> 0 < Cut(t, trimmed).skipped <= trimmed + |t|
  {
    var sp := IndexAny(t, STOP);
    if t[0] != ANGLE && sp > 0 {
      match Atoi(Trim(t[..sp], BLANK)) {
        case None =>
        case Some(n) => CountedAdvances(t, trimmed, sp, n);
      }
    }
  }

  lemma CountedAdvances(t: Data, trimmed: nat, sp: nat, n: int)
    requires sp < |t|
    ensures Counted(t, trimmed, sp, n).Token? ==> 0 < Counted(t, trimmed, sp, n).advance <= trimmed + |t|
    ensures Counted(t, trimmed, sp, n).Skip? ==> 0 < Counted(t, trimmed, sp, n).skipped <= trimmed + |t|
  {
  }

  lemma TcpAdvances(d: Data)
    ensures TcpCut(d).Token? ==> 0 < TcpCut(d).advance <= |d|
    ensures TcpCut(d).Skip? ==> 0 < TcpCut(d).skipped <= |d|
  {
    var t := TrimLeft(d, BLANK);
    if t != [] { CutAdvances(t, |d| - |t|); }
  }

  lemma TcpStays(d: Data, x: Data)
    requires !TcpCut(d).Need?
    ensures TcpCut(d + x) == TcpCut(d)
  {
    var t := TrimLeft(d, BLANK);
    TrimLeftAppend(d, BLANK, x);
    CutStays(t, |d| - |t|, x);
  }

  /** Both framings wait for the whole frame and never change their mind. */
  lemma TcpStable()
    ensures Stable(TcpCut)
  {
    forall d: Data
      ensures TcpCut(d).Token? ==> 0 < TcpCut(d).advance <= |d|
      ensures TcpCut(d).Skip? ==> 0 < TcpCut(d).skipped <= |d|
    {
      TcpAdvances(d);
    }
    forall d: Data, x: Data | !TcpCut(d).Need? ensures TcpCut(d + x) == TcpCut(d) {
      TcpStays(d, x);
    }
  }

  /** TcpOctetEncode: the length, a space, the message. */
  function OctetFrame(p: Data): Data {
    if p == [] then [] else Digits(|p|) + [SPACE] + p
  }

  lemma OctetHeader(h: Data, rest: Data)
    requires AllDigits(h) && h != []
    ensures
      var f := h + [SPACE] + rest;
      f[0] == h[0] && f[..|h|] == h && IndexAny(f, STOP) == |h|
  {
    var f := h + [SPACE] + rest;
    assert f[..|h|] == h;
    NoBlankDigit(h);
    IndexIs(f, STOP, |h|);
  }

  lemma NoBlankDigit(h: Data)
    requires AllDigits(h)
    ensures Without(h, BLANK) && Without(h, STOP)
  {
    forall i | 0 <= i < |h| ensures h[i] !in BLANK {
      assert IsDigit(h[i]);
    }
  }

  /** A counted message comes back whatever follows it, exactly when it has no blank at either end. */
  lemma OctetRoundTrip(p: Data, rest: Data)
    requires p != [] && IsInt64(|OctetFrame(p)|)
    ensures
      TcpCut(OctetFrame(p) + rest)
      == if Trim(p, BLANK) == [] then Skip(|OctetFrame(p)|) else Token(|OctetFrame(p)|, Trim(p, BLANK))
    ensures
      TcpCut(OctetFrame(p) + rest) == Token(|OctetFrame(p)|, p)
      <==> p[0] !in BLANK && p[|p| - 1] !in BLANK
  {
    var h := Digits(|p|);
    var f := OctetFrame(p) + rest;
    assert f == h + [SPACE] + (p + rest);
    OctetHeader(h, p + rest);
    NoBlankDigit(h);
    TrimNothing(h, BLANK);
    AtoiDigits(|p|);
    assert f[|h| + 1..|h| + 1 + |p|] == p;
    assert IsDigit(h[0]);
    assert TcpCut(f) == Counted(f, 0, |h|, |p|);
    TrimKeeps(p, BLANK);
  }

  /** A line that starts with a priority comes back without the blanks at its end. */
  lemma LineRoundTrip(p: Data, rest: Data)
    requires p != [] && p[0] == ANGLE && LF !in p
    ensures TcpCut(p + [LF] + rest) == Token(|p| + 1, Trim(p, BLANK))
    ensures Trim(p, BLANK) == p <==> p[|p| - 1] !in BLANK
  {
    var f := p + [LF] + rest;
    assert f[0] == ANGLE && f[|p|] == LF;
    assert f[..|p|] == p;
    IndexIs(f, {LF}, |p|);
    TrimKeeps(p, BLANK);
  }

  datatype Message = Octets(payload: Data) | Text(payload: Data)

  /** What a sender may put on the wire: a counted message or a line. */
  predicate Sendable(m: Message) {
    match m
    case Octets(p) => p != [] && IsInt64(|OctetFrame(p)|)
    case Text(p) => p != [] && p[0] == ANGLE && LF !in p
  }

  function Wire(m: Message): Data {
    match m
    case Octets(p) => OctetFrame(p)
    case Text(p) => p + [LF]
  }

  function Wires(ms: seq<Message>): seq<Data> {
    seq(|ms|, i requires 0 <= i < |ms| => Wire(ms[i]))
  }

  /** What a message comes out as: a counted message that is blank comes out as nothing. */
  function Received(m: Message): Option<Data> {
    var token := Trim(m.payload, BLANK);
    if token == [] then None else Some(token)
  }

  function AllReceived(ms: seq<Message>): (r: seq<Option<Data>>)
    ensures |r| == |ms| && forall i :: 0 <= i < |ms| ==> r[i] == Received(ms[i])
  {
    seq(|ms|, i requires 0 <= i < |ms| => Received(ms[i]))
  }

  lemma WireRoundTrip(m: Message, rest: Data)
    requires Sendable(m)
    ensures TcpCut(Wire(m) + rest) == Whole(Wire(m), Received(m))
  {
    match m {
      case Octets(p) => OctetRoundTrip(p, rest);
      case Text(p) =>
        LineRoundTrip(p, rest);
        TextNotBlank(p);
    }
  }

  lemma TextNotBlank(p: Data)
    requires p != [] && p[0] == ANGLE
    ensures Trim(p, BLANK) != []
  {
    assert TrimLeft(p, BLANK) == p;
    TrimRightKeepsStart(p);
  }

  lemma {:induction false} TrimRightKeepsStart(p: Data)
    requires p != [] && p[0] !in BLANK
    ensures TrimRight(p, BLANK) != []
  {
    if p[|p| - 1] !in BLANK {
    } else {
      TrimRightKeepsStart(p[..|p| - 1]);
    }
  }

  /** Lines and counted messages may be mixed: they are read back one by one, however the stream is cut up. */
  lemma TcpStream(ms: seq<Message>, pieces: seq<Data>)
    requires forall i :: 0 <= i < |ms| ==> Sendable(ms[i])
    requires Concat(pieces) == Concat(Wires(ms))
    ensures Scan(TcpCut, pieces) == Scanned(Somes(AllReceived(ms)), [], false)
  {
    TcpStable();
    forall i, x: Data | 0 <= i < |ms|
      ensures TcpCut(Wires(ms)[i] + x) == Whole(Wires(ms)[i], AllReceived(ms)[i])
    {
      WireRoundTrip(ms[i], x);
    }
    StreamComesOut(TcpCut, Wires(ms), AllReceived(ms), pieces);
  }
}
