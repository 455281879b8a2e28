/** Cutting a stream into tokens, as bufio.Scanner does with a split function. */
module Scanner {
  import opened Bytes
  import Listings

  /** A split function's answer on what has been read: more is needed, a token, bytes without a token, or an error. */
  datatype Split = Need | Token(advance: nat, token: Data) | Skip(skipped: nat) | Fail

  datatype Scanned = Scanned(tokens: seq<Data>, rest: Data, failed: bool)

  /** The tokens at the front of the buffer, until more must be read. */
  function Drain(split: Data -> Split, buf: Data): Scanned
    decreases |buf|
  {
    match split(buf)
    case Token(advance, token) =>
      if 0 < advance <= |buf| then
        var r := Drain(split, buf[advance..]);
        Scanned([token] + r.tokens, r.rest, r.failed)
      else Scanned([], buf, true)
    case Skip(n) => if 0 < n <= |buf| then Drain(split, buf[n..]) else Scanned([], buf, true)
    case Need => Scanned([], buf, false)
    case Fail => Scanned([], buf, true)
  }

  /** Scanning a stream that arrives in pieces: after each read, the buffer is drained. */
  function Scan(split: Data -> Split, pieces: seq<Data>): Scanned {
    if pieces == [] then Scanned([], [], false)
    else
      var k := |pieces| - 1;
      var before := Scan(split, pieces[..k]);
      if before.failed then before
      else
        var r := Drain(split, before.rest + pieces[k]);
        Scanned(before.tokens + r.tokens, r.rest, r.failed)
  }

  function Concat(pieces: seq<Data>): Data {
    if pieces == [] then [] else Concat(pieces[..|pieces| - 1]) + pieces[|pieces| - 1]
  }

  /** Once a split function has an answer other than "more", reading more does not change it. */
  ghost predicate Stable(split: Data -> Split) {
    && split([]).Need?
    && (forall d, x :: split(d).Token? || split(d).Skip? || split(d).Fail? ==> split(d + x) == split(d))
    && (forall d :: split(d).Token? ==> 0 < split(d).advance <= |d|)
    && (forall d :: split(d).Skip? ==> 0 < split(d).skipped <= |d|)
  }

  lemma SplitStays(split: Data -> Split, a: Data, b: Data)
    requires Stable(split)
    ensures !split(a).Need? ==> split(a + b) == split(a)
    ensures split(a).Token? ==> 0 < split(a).advance <= |a|
    ensures split(a).Skip? ==> 0 < split(a).skipped <= |a|
  {
  }

  /** What a drained buffer followed by more bytes amounts to. */
  function Resume(split: Data -> Split, r: Scanned, more: Data): Scanned {
    if r.failed then r
    else
      var t := Drain(split, r.rest + more);
      Scanned(r.tokens + t.tokens, t.rest, t.failed)
  }

  predicate Alike(r: Scanned, s: Scanned) {
    r.tokens == s.tokens && r.failed == s.failed && (!r.failed ==> r.rest == s.rest)
  }

  function Prefixed(token: Data, r: Scanned): Scanned {
    Scanned([token] + r.tokens, r.rest, r.failed)
  }

  lemma ResumePrefixed(split: Data -> Split, token: Data, r: Scanned, more: Data)
    ensures Resume(split, Prefixed(token, r), more) == Prefixed(token, Resume(split, r, more))
  {
    if !r.failed {
      var t := Drain(split, r.rest + more);
      assert [token] + (r.tokens + t.tokens) == ([token] + r.tokens) + t.tokens;
    }
  }

  lemma DrainToken(split: Data -> Split, buf: Data)
    requires split(buf).Token? && 0 < split(buf).advance <= |buf|
    ensures Drain(split, buf) == Prefixed(split(buf).token, Drain(split, buf[split(buf).advance..]))
  {
  }

  lemma FrontToken(split: Data -> Split, f: Data, token: Data, x: Data)
    requires f != [] && split(f + x) == Token(|f|, token)
    ensures Drain(split, f + x) == Prefixed(token, Drain(split, x))
  {
    assert (f + x)[|f|..] == x;
  }

  lemma {:induction false} DrainAppend(split: Data -> Split, a: Data, b: Data)
    requires Stable(split)
    ensures Alike(Drain(split, a + b), Resume(split, Drain(split, a), b))
    decreases |a|
  {
    SplitStays(split, a, b);
    match split(a) {
      case Token(n, token) =>
        assert (a + b)[n..] == a[n..] + b;
        DrainToken(split, a);
        DrainToken(split, a + b);
        ResumePrefixed(split, token, Drain(split, a[n..]), b);
        DrainAppend(split, a[n..], b);
      case Skip(n) =>
        assert (a + b)[n..] == a[n..] + b;
        DrainAppend(split, a[n..], b);
      case Need =>
        var t := Drain(split, a + b);
        assert [] + t.tokens == t.tokens;
      case Fail =>
    }
  }

  /** Chunk independence: however a stream is cut up, the tokens are those of the whole. */
  lemma {:induction false} ChunksDoNotMatter(split: Data -> Split, pieces: seq<Data>)
    requires Stable(split)
    ensures Alike(Scan(split, pieces), Drain(split, Concat(pieces)))
  {
    if pieces == [] {
    } else {
      var k := |pieces| - 1;
      ChunksDoNotMatter(split, pieces[..k]);
      DrainAppend(split, Concat(pieces[..k]), pieces[k]);
    }
  }

  lemma ScanIsDrain(split: Data -> Split, pieces: seq<Data>, whole: Data)
    requires Stable(split) && Concat(pieces) == whole
    ensures Scan(split, pieces).tokens == Drain(split, whole).tokens && Scan(split, pieces).failed == Drain(split, whole).failed
  {
    ChunksDoNotMatter(split, pieces);
  }

  /** Any two ways of cutting up the same stream give the same tokens. */
  lemma SameStreamSameTokens(split: Data -> Split, x: seq<Data>, y: seq<Data>)
    requires Stable(split) && Concat(x) == Concat(y)
    ensures Scan(split, x).tokens == Scan(split, y).tokens && Scan(split, x).failed == Scan(split, y).failed
  {
    ChunksDoNotMatter(split, x);
    ChunksDoNotMatter(split, y);
  }

  /** What a split function makes of a frame that it takes off whole: a token, or nothing. */
  function Whole(frame: Data, token: Option<Data>): Split {
    if token.None? then Skip(|frame|) else Token(|frame|, token.value)
  }

  function Somes(tokens: seq<Option<Data>>): seq<Data> {
    if tokens == [] then []
    else
      var k := |tokens| - 1;
      Somes(tokens[..k]) + OneSome(tokens[k])
  }

  function OneSome(token: Option<Data>): seq<Data> { if token.None? then [] else [token.value] }

  lemma OneFrameComesOut(split: Data -> Split, f: Data, token: Option<Data>, rest: Data)
    requires 0 < |f| && split(f + rest) == Whole(f, token)
    ensures
      var r := Drain(split, rest);
      Drain(split, f + rest) == Scanned(OneSome(token) + r.tokens, r.rest, r.failed)
  {
    assert (f + rest)[|f|..] == rest;
    assert [] + Drain(split, rest).tokens == Drain(split, rest).tokens;
  }

  ghost predicate TakenWhole(split: Data -> Split, frame: Data, token: Option<Data>) {
    0 < |frame| && forall x :: split(frame + x) == Whole(frame, token)
  }

  lemma ConcatLast(frames: seq<Data>, rest: Data)
    requires frames != []
    ensures
      var k := |frames| - 1;
      Concat(frames) + rest == Concat(frames[..k]) + (frames[k] + rest)
  {
  }

  lemma SomesLast(tokens: seq<Option<Data>>, more: seq<Data>)
    requires tokens != []
    ensures
      var k := |tokens| - 1;
      Somes(tokens) + more == Somes(tokens[..k]) + (OneSome(tokens[k]) + more)
  {
  }

  /** Frames that a split function takes off whole, whatever follows them, come out one by one. */
  lemma {:induction false} FramesComeOut(split: Data -> Split, frames: seq<Data>, tokens: seq<Option<Data>>, rest: Data)
    requires |frames| == |tokens|
    requires forall i :: 0 <= i < |frames| ==> TakenWhole(split, frames[i], tokens[i])
    ensures
      var r := Drain(split, rest);
      Drain(split, Concat(frames) + rest) == Scanned(Somes(tokens) + r.tokens, r.rest, r.failed)
  {
    if frames == [] {
      assert Concat(frames) + rest == rest;
      assert Somes(tokens) + Drain(split, rest).tokens == Drain(split, rest).tokens;
    } else {
      var k := |frames| - 1;
      FramesComeOut(split, frames[..k], tokens[..k], frames[k] + rest);
      ConcatLast(frames, rest);
      assert TakenWhole(split, frames[k], tokens[k]);
      OneFrameComesOut(split, frames[k], tokens[k], rest);
      SomesLast(tokens, Drain(split, rest).tokens);
    }
  }

  /** The two together: frames sent one after the other and read in any pieces are read back one by one. */
  lemma StreamComesOut(split: Data -> Split, frames: seq<Data>, tokens: seq<Option<Data>>, pieces: seq<Data>)
    requires Stable(split)
    requires |frames| == |tokens|
    requires forall i, x :: 0 <= i < |frames| ==> split(frames[i] + x) == Whole(frames[i], tokens[i])
    requires Concat(pieces) == Concat(frames)
    ensures Scan(split, pieces) == Scanned(Somes(tokens), [], false)
  {
    forall i | 0 <= i < |frames| ensures TakenWhole(split, frames[i], tokens[i]) {
      SplitStays(split, frames[i] + [], []);
      assert split(frames[i] + []) == Whole(frames[i], tokens[i]);
    }
    FramesComeOut(split, frames, tokens, []);
    assert Concat(frames) + [] == Concat(frames);
    assert Somes(tokens) + [] == Somes(tokens);
    ChunksDoNotMatter(split, pieces);
  }

  /** The same when every frame is a token. */
  lemma TokensComeOut(split: Data -> Split, frames: seq<Data>, tokens: seq<Data>, pieces: seq<Data>)
    requires Stable(split)
    requires |frames| == |tokens|
    requires forall i, x :: 0 <= i < |frames| ==> split(frames[i] + x) == Token(|frames[i]|, tokens[i])
    requires Concat(pieces) == Concat(frames)
    ensures Scan(split, pieces) == Scanned(tokens, [], false)
  {
    StreamComesOut(split, frames, Present(tokens), pieces);
    SomesPresent(tokens);
  }

  function Present(tokens: seq<Data>): (r: seq<Option<Data>>)
    ensures |r| == |tokens| && forall i :: 0 <= i < |r| ==> r[i] == Some(tokens[i])
  {
    seq(|tokens|, i requires 0 <= i < |tokens| => Some(tokens[i]))
  }

  lemma {:induction false} SomesPresent(tokens: seq<Data>)
    ensures Somes(Present(tokens)) == tokens
  {
    if tokens == [] {
    } else {
      var k := |tokens| - 1;
      SomesPresent(tokens[..k]);
      assert Present(tokens)[..k] == Present(tokens[..k]);
      assert tokens == tokens[..k] + [tokens[k]];
    }
  }

  function Tokens<F>(tok: F -> Data, fs: seq<F>): seq<Data> {
    if fs == [] then [] else [tok(fs[0])] + Tokens(tok, fs[1..])
  }

  /** What is left unread after frames that each leave something for the next. */
  function Unread<F>(after: F -> Data, lead: Data, fs: seq<F>): Data
    decreases |fs|
  {
    if fs == [] then lead else Unread(after, after(fs[0]), fs[1..])
  }

  /** A frame is taken off after anything acceptable, and leaves something acceptable. */
  ghost predicate TakenOff<F>(split: Data -> Split, ok: Data -> bool, enc: F -> Data, tok: F -> Data, after: F -> Data, f: F) {
    && ok(after(f))
    && forall lead, x :: ok(lead) ==>
         Drain(split, lead + enc(f) + x) == Prefixed(tok(f), Drain(split, after(f) + x))
  }

  /** Frames that leave a little unread still come out one by one. */
  lemma {:induction false} ShiftedFramesComeOut<F>(
    split: Data -> Split, ok: Data -> bool, enc: F -> Data, tok: F -> Data, after: F -> Data, lead: Data, fs: seq<F>)
    requires ok(lead) && forall l :: ok(l) ==> split(l).Need?
    requires forall i :: 0 <= i < |fs| ==> TakenOff(split, ok, enc, tok, after, fs[i])
    ensures
      Drain(split, lead + Listings.Concat(enc, fs))
      == Scanned(Tokens(tok, fs), Unread(after, lead, fs), false)
    decreases |fs|
  {
    if fs == [] {
      assert lead + [] == lead;
    } else {
      var f, more := fs[0], Listings.Concat(enc, fs[1..]);
      assert TakenOff(split, ok, enc, tok, after, f);
      assert lead + Listings.Concat(enc, fs) == lead + enc(f) + more;
      ShiftedFramesComeOut(split, ok, enc, tok, after, after(f), fs[1..]);
    }
  }
}
