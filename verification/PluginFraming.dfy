/** The frames between skewer and its child processes: plain, encrypted and signed (utils/split.go). */
module PluginFraming {
  import opened Bytes
  import opened Decimal
  import opened Scanner

  const SPACE: Byte := 32

  /** Ten digits and a space at position i. */
  predicate Header(data: Data, i: nat)
    requires i + 11 <= |data|
  {
    AllDigits(data[i..i + 10]) && data[i + 10] == SPACE
  }

  /** PluginSplit: a ten digit length, a space and as many bytes. */
  function PluginCut(data: Data): Split {
    if |data| < 11 then Need
    else if !Header(data, 0) then Fail
    else
      var n := Value(data[0..10]);
      if |data| < 11 + n then Need else Token(11 + n, data[11..11 + n])
  }

  method CheckDigits(data: Data, from: nat, to: nat) returns (ok: bool)
    requires from <= to <= |data|
    ensures ok == AllDigits(data[from..to])
  {
    for i := from to to
      invariant AllDigits(data[from..i])
    {
      if data[i] < ZERO || data[i] > NINE {
        assert data[from..to][i - from] == data[i];
        return false;
      }
      assert data[from..i + 1] == data[from..i] + [data[i]];
    }
    return true;
  }

  /** strconv.Atoi cannot fail on the ten digits of a header. */
  lemma HeaderNumber(d: Data)
    requires AllDigits(d) && |d| == 10
    ensures Atoi(d) == Some(Value(d)) && Value(d) < Pow10(10)
  {
    ValueBound(d);
    Pow10Ten();
    AtoiDigitString(d);
  }

  method PluginSplit(data: Data) returns (r: Split)
    ensures r == PluginCut(data)
  {
    if |data| < 11 { return Need; }
    if data[10] != SPACE { return Fail; }
    var ok := CheckDigits(data, 0, 10);
    if !ok { return Fail; }
    HeaderNumber(data[0..10]);
    var datalen := Atoi(data[0..10]);
    if datalen.None? { return Fail; }
    var advance := 11 + datalen.value;
    if |data| < advance { return Need; }
    return Token(advance, data[11..advance]);
  }

  /** EncryptWriter.Write without a key; nothing is written for an empty message. */
  function PluginFrame(p: Data): Data {
    if p == [] then [] else Padded(|p|) + [SPACE] + p
  }

  lemma PluginStable()
    ensures Stable(PluginCut)
  {
    forall d: Data, x: Data | !PluginCut(d).Need?
      ensures PluginCut(d + x) == PluginCut(d)
    {
      assert (d + x)[0..10] == d[0..10];
      if PluginCut(d).Token? {
        var n := Value(d[0..10]);
        assert (d + x)[11..11 + n] == d[11..11 + n];
      }
    }
  }

  /** A message comes back whatever follows it, exactly when its length has at most ten digits. */
  lemma PluginRoundTrip(p: Data, rest: Data)
    requires p != []
    ensures PluginCut(PluginFrame(p) + rest) == Token(|PluginFrame(p)|, p) <==> |p| < Pow10(10)
    ensures |p| >= Pow10(10) ==> PluginCut(PluginFrame(p) + rest).Fail?
  {
    var h := Padded(|p|);
    var f := PluginFrame(p) + rest;
    PaddedValue(|p|);
    assert f[..|h|] == h;
    if |p| < Pow10(10) {
      assert f[0..10] == h;
      assert f[11..11 + |p|] == p;
    } else {
      assert f[10] == h[10] && IsDigit(h[10]);
    }
  }

  /** Signed frames: two lengths, the message and its signature. */
  function SignCut(verify: (Data, Data) -> bool, data: Data): Split {
    if |data| < 22 then Need
    else if !Header(data, 0) || !Header(data, 11) then Fail
    else
      var m, s := Value(data[0..10]), Value(data[11..21]);
      if |data| < 22 + m + s then Need
      else if verify(data[22..22 + m], data[22 + m..22 + m + s]) then Token(22 + m + s, data[22..22 + m])
      else Fail
  }

  method SignSplit(verify: (Data, Data) -> bool, data: Data) returns (r: Split)
    ensures r == SignCut(verify, data)
  {
    if |data| < 22 { return Need; }
    if data[10] != SPACE || data[21] != SPACE { return Fail; }
    var ok := CheckDigits(data, 0, 10);
    if !ok { return Fail; }
    ok := CheckDigits(data, 11, 21);
    if !ok { return Fail; }
    HeaderNumber(data[0..10]);
    HeaderNumber(data[11..21]);
    var m, s := Atoi(data[0..10]), Atoi(data[11..21]);
    if m.None? || s.None? { return Fail; }
    var advance := 22 + m.value + s.value;
    if |data| < advance { return Need; }
    if verify(data[22..22 + m.value], data[22 + m.value..advance]) {
      return Token(advance, data[22..22 + m.value]);
    }
    return Fail;
  }

  /** SigWriter.Write. */
  function SignFrame(sign: Data -> Data, p: Data): Data {
    if p == [] then [] else Padded(|p|) + [SPACE] + Padded(|sign(p)|) + [SPACE] + p + sign(p)
  }

  lemma SignStable(verify: (Data, Data) -> bool)
    ensures Stable(d => SignCut(verify, d))
  {
    var split := (d: Data) => SignCut(verify, d);
    forall d: Data, x: Data | !split(d).Need?
      ensures split(d + x) == split(d)
    {
      assert (d + x)[0..10] == d[0..10];
      assert (d + x)[11..21] == d[11..21];
      if Header(d, 0) && Header(d, 11) {
        var m, s := Value(d[0..10]), Value(d[11..21]);
        assert (d + x)[22..22 + m] == d[22..22 + m];
        assert (d + x)[22 + m..22 + m + s] == d[22 + m..22 + m + s];
      }
    }
  }

  /** Both lengths have at most ten digits. */
  predicate Headed(sign: Data -> Data, p: Data) { |p| < Pow10(10) && |sign(p)| < Pow10(10) }

  /** A signed message is handed on exactly when its lengths fit and its signature checks out, and never altered. */
  lemma SignRoundTrip(sign: Data -> Data, verify: (Data, Data) -> bool, p: Data, rest: Data)
    requires p != []
    ensures
      SignCut(verify, SignFrame(sign, p) + rest)
      == if Headed(sign, p) && verify(p, sign(p)) then Token(|SignFrame(sign, p)|, p) else Fail
  {
    if Headed(sign, p) { SignFits(sign, verify, p, rest); } else { SignTooLong(sign, verify, p, rest); }
  }

  lemma SignTooLong(sign: Data -> Data, verify: (Data, Data) -> bool, p: Data, rest: Data)
    requires p != [] && !Headed(sign, p)
    ensures SignCut(verify, SignFrame(sign, p) + rest).Fail?
  {
    var h, g := Padded(|p|), Padded(|sign(p)|);
    PaddedValue(|p|);
    PaddedValue(|sign(p)|);
    LongHeader(verify, h, g, p + sign(p) + rest);
    Regroup(h + [SPACE] + g + [SPACE], p, sign(p), rest);
  }

  lemma LongHeader(verify: (Data, Data) -> bool, h: Data, g: Data, x: Data)
    requires AllDigits(h) && AllDigits(g) && |h| >= 10 && |g| >= 10 && |h| + |g| > 20
    ensures SignCut(verify, h + [SPACE] + g + [SPACE] + x).Fail?
  {
    var f := h + [SPACE] + g + [SPACE] + x;
    if |h| > 10 {
      assert f[10] == h[10] && IsDigit(h[10]);
    } else {
      assert f[21] == g[10] && IsDigit(g[10]);
    }
  }

  lemma SignFits(sign: Data -> Data, verify: (Data, Data) -> bool, p: Data, rest: Data)
    requires p != [] && Headed(sign, p)
    ensures
      SignCut(verify, SignFrame(sign, p) + rest)
      == if verify(p, sign(p)) then Token(|SignFrame(sign, p)|, p) else Fail
  {
    var h, g, s := Padded(|p|), Padded(|sign(p)|), sign(p);
    var f := SignFrame(sign, p) + rest;
    PaddedValue(|p|);
    PaddedValue(|s|);
    assert f == h + [SPACE] + g + [SPACE] + p + s + rest;
    assert f[0..10] == h;
    assert f[11..21] == g;
    assert f[22..22 + |p|] == p;
    assert f[22 + |p|..22 + |p| + |s|] == s;
  }

  /** MakeDecryptSplit with a key: a plain frame whose content is opened. */
  function DecryptCut(open: Data -> Option<Data>, data: Data): Split {
    match PluginCut(data)
    case Token(advance, token) =>
      if open(token).None? then Fail else Token(advance, open(token).value)
    case r => r
  }

  /** EncryptWriter.Write with a key: the header is cut to eleven bytes. */
  function EncryptFrame(seal: Data -> Data, p: Data): Data {
    if p == [] then [] else (Padded(|seal(p)|) + [SPACE])[..11] + seal(p)
  }

  lemma DecryptStable(open: Data -> Option<Data>)
    ensures Stable(d => DecryptCut(open, d))
  {
    PluginStable();
    var split := (d: Data) => DecryptCut(open, d);
    forall d: Data, x: Data | !split(d).Need?
      ensures split(d + x) == split(d)
    {
      assert !PluginCut(d).Need?;
      assert PluginCut(d + x) == PluginCut(d);
    }
  }

  lemma EncryptRoundTrip(seal: Data -> Data, open: Data -> Option<Data>, p: Data, rest: Data)
    requires p != [] && seal(p) != [] && open(seal(p)) == Some(p)
    ensures
      |seal(p)| < Pow10(10) ==>
      DecryptCut(open, EncryptFrame(seal, p) + rest) == Token(|EncryptFrame(seal, p)|, p)
    ensures |seal(p)| >= Pow10(10) ==> DecryptCut(open, EncryptFrame(seal, p) + rest).Fail?
  {
    var c := seal(p);
    PaddedValue(|c|);
    var h := Padded(|c|) + [SPACE];
    var f := EncryptFrame(seal, p) + rest;
    if |c| < Pow10(10) {
      assert h[..11] == h;
      assert f == PluginFrame(c) + rest;
      PluginRoundTrip(c, rest);
    } else {
      assert f[10] == Padded(|c|)[10] && IsDigit(Padded(|c|)[10]);
    }
  }

  function PluginFrames(ps: seq<Data>): seq<Data> {
    seq(|ps|, i requires 0 <= i < |ps| => PluginFrame(ps[i]))
  }

  /** A stream of messages written to a plugin is read back whole and in order, however it is cut up. */
  lemma PluginStream(ps: seq<Data>, pieces: seq<Data>)
    requires forall i :: 0 <= i < |ps| ==> 0 < |ps[i]| < Pow10(10)
    requires Concat(pieces) == Concat(PluginFrames(ps))
    ensures Scan(PluginCut, pieces) == Scanned(ps, [], false)
  {
    PluginStable();
    forall i, x: Data | 0 <= i < |ps|
      ensures PluginCut(PluginFrames(ps)[i] + x) == Token(|PluginFrames(ps)[i]|, ps[i])
    {
      PluginRoundTrip(ps[i], x);
    }
    TokensComeOut(PluginCut, PluginFrames(ps), ps, pieces);
  }

  function SignFrames(sign: Data -> Data, ps: seq<Data>): seq<Data> {
    seq(|ps|, i requires 0 <= i < |ps| => SignFrame(sign, ps[i]))
  }

  /** The same for signed messages, when every signature made is one that checks out. */
  lemma SignStream(sign: Data -> Data, verify: (Data, Data) -> bool, ps: seq<Data>, pieces: seq<Data>)
    requires forall i :: 0 <= i < |ps| ==> 0 < |ps[i]| < Pow10(10) && |sign(ps[i])| < Pow10(10)
    requires forall i :: 0 <= i < |ps| ==> verify(ps[i], sign(ps[i]))
    requires Concat(pieces) == Concat(SignFrames(sign, ps))
    ensures Scan(d => SignCut(verify, d), pieces) == Scanned(ps, [], false)
  {
    var split := (d: Data) => SignCut(verify, d);
    SignStable(verify);
    var frames := SignFrames(sign, ps);
    forall i, x: Data | 0 <= i < |ps|
      ensures split(frames[i] + x) == Token(|frames[i]|, ps[i])
    {
      SignRoundTrip(sign, verify, ps[i], x);
    }
    TokensComeOut(split, frames, ps, pieces);
  }

  function EncryptFrames(seal: Data -> Data, ps: seq<Data>): seq<Data> {
    seq(|ps|, i requires 0 <= i < |ps| => EncryptFrame(seal, ps[i]))
  }

  /** The same for encrypted messages, when opening undoes sealing. */
  lemma EncryptStream(seal: Data -> Data, open: Data -> Option<Data>, ps: seq<Data>, pieces: seq<Data>)
    requires forall i :: 0 <= i < |ps| ==> ps[i] != [] && 0 < |seal(ps[i])| < Pow10(10)
    requires forall i :: 0 <= i < |ps| ==> open(seal(ps[i])) == Some(ps[i])
    requires Concat(pieces) == Concat(EncryptFrames(seal, ps))
    ensures Scan(d => DecryptCut(open, d), pieces) == Scanned(ps, [], false)
  {
    var split := (d: Data) => DecryptCut(open, d);
    DecryptStable(open);
    var frames := EncryptFrames(seal, ps);
    forall i, x: Data | 0 <= i < |ps|
      ensures split(frames[i] + x) == Token(|frames[i]|, ps[i])
    {
      EncryptRoundTrip(seal, open, ps[i], x);
    }
    TokensComeOut(split, frames, ps, pieces);
  }
}
