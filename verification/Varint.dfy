/**
 Base-128 variable-length integers and the zigzag map. The same wire form is
 written by encoding/binary (store timestamps), by the protobuf code and by the
 Avro code; the three readers differ only in how they treat input that no
 writer produces, so each has its own specification here.
 */
module Varint {
  import opened Bytes

  /** 128 to the power k. */
  function Pow128(k: nat): (p: nat)
    ensures p > 0
  {
    if k == 0 then 1 else 128 * Pow128(k - 1)
  }

  /** The wire form: seven bits per byte, low bits first, top bit set on all but the last byte. */
  function Enc(n: nat): (bs: Data)
    ensures 0 < |bs|
  {
    if n < 128 then [n] else [n % 128 + 128] + Enc(n / 128)
  }

  /** The number the low seven bits of all bytes stand for. */
  function Val(bs: Data): nat {
    if bs == [] then 0 else bs[0] % 128 + 128 * Val(bs[1..])
  }

  /** The index of the first byte without a continuation bit, or the length when there is none. */
  function Term(bs: Data): (k: nat)
    ensures k <= |bs|
    ensures forall i :: 0 <= i < k ==> bs[i] >= 128
    ensures k < |bs| ==> bs[k] < 128
  {
    if bs == [] then 0 else if bs[0] < 128 then 0 else 1 + Term(bs[1..])
  }

  lemma TermUnique(bs: Data, k: nat)
    requires k < |bs| && bs[k] < 128
    requires forall i :: 0 <= i < k ==> bs[i] >= 128
    ensures Term(bs) == k
  {
  }

  lemma {:induction false} EncShape(n: nat)
    ensures forall i :: 0 <= i < |Enc(n)| - 1 ==> Enc(n)[i] >= 128
    ensures Enc(n)[|Enc(n)| - 1] < 128
    ensures Val(Enc(n)) == n
  {
    if n < 128 {
    } else {
      EncShape(n / 128);
      var e := Enc(n / 128);
      assert Enc(n) == [n % 128 + 128] + e;
      assert Enc(n)[1..] == e;
      forall i | 0 <= i < |Enc(n)| - 1 ensures Enc(n)[i] >= 128 {
        if i > 0 { assert Enc(n)[i] == e[i - 1]; }
      }
    }
  }

  /** Length and value bound each other. */
  lemma {:induction false} EncLength(n: nat, k: nat)
    requires k > 0
    ensures |Enc(n)| <= k <==> n < Pow128(k)
  {
    if k == 1 {
      assert Pow128(1) == 128 * Pow128(0);
      assert Pow128(0) == 1;
    } else if n >= 128 {
      EncLength(n / 128, k - 1);
      assert Pow128(k) == 128 * Pow128(k - 1);
      DivLess(n, Pow128(k - 1));
    } else {
      assert Pow128(k) == 128 * Pow128(k - 1) >= 128;
    }
  }

  lemma DivLess(n: nat, p: nat)
    ensures n / 128 < p <==> n < 128 * p
  {
  }

  lemma {:induction false} ValSplit(a: Data, b: Data)
    ensures Val(a + b) == Val(a) + Pow128(|a|) * Val(b)
  {
    if a == [] {
      assert a + b == b;
    } else {
      ValSplit(a[1..], b);
      assert (a + b)[1..] == a[1..] + b;
      calc {
        Val(a + b);
        a[0] % 128 + 128 * (Val(a[1..]) + Pow128(|a| - 1) * Val(b));
        { assert 128 * (Pow128(|a| - 1) * Val(b)) == Pow128(|a|) * Val(b); }
        Val(a) + Pow128(|a|) * Val(b);
      }
    }
  }

  lemma {:induction false} ValBound(bs: Data)
    ensures Val(bs) < Pow128(|bs|)
  {
    if bs == [] {
    } else {
      ValBound(bs[1..]);
    }
  }

  lemma ValSnoc(a: Data, b: Byte)
    ensures Val(a + [b]) == Val(a) + Pow128(|a|) * (b % 128)
  {
    ValSplit(a, [b]);
    assert [b][1..] == [];
    assert Val([b]) == b % 128;
  }

  lemma Pow128Nine()
    ensures Pow128(9) == TWO63
    ensures Pow128(10) == 64 * TWO64
  {
    assert Pow128(1) == 128 * Pow128(0) == 128;
    assert Pow128(2) == 128 * Pow128(1) == 16384;
    assert Pow128(3) == 128 * Pow128(2);
    assert Pow128(4) == 128 * Pow128(3);
    assert Pow128(5) == 128 * Pow128(4);
    assert Pow128(6) == 128 * Pow128(5);
    assert Pow128(7) == 128 * Pow128(6);
    assert Pow128(8) == 128 * Pow128(7);
  }

  /** A 64-bit number takes at most ten bytes, and a tenth byte carries one bit. */
  lemma Enc64(n: nat)
    requires n < TWO64
    ensures |Enc(n)| <= 10
    ensures |Enc(n)| == 10 ==> Enc(n)[9] <= 1
  {
    Pow128Nine();
    EncLength(n, 10);
    if |Enc(n)| == 10 {
      EncShape(n);
      var e := Enc(n);
      assert e == e[..9] + [e[9]];
      ValSnoc(e[..9], e[9]);
    }
  }

  lemma TermEnc(n: nat, rest: Data)
    ensures Term(Enc(n) + rest) == |Enc(n)| - 1
    ensures (Enc(n) + rest)[..|Enc(n)|] == Enc(n)
  {
    EncShape(n);
    var bs := Enc(n) + rest;
    forall i | 0 <= i < |Enc(n)| - 1 ensures bs[i] >= 128 {
      assert bs[i] == Enc(n)[i];
    }
    TermUnique(bs, |Enc(n)| - 1);
  }

  /** The written form is found again at the front of whatever it starts. */
  lemma ReadBack(n: nat, rest: Data)
    ensures
      var d, k := Enc(n) + rest, |Enc(n)|;
      Term(d) == k - 1 && Val(d[..k]) == n && d[k..] == rest
  {
    TermEnc(n, rest);
    EncShape(n);
  }

  // ---------------------------------------------------------------- zigzag

  /** Folds the sign into the lowest bit. */
  function Zig(x: int): nat {
    if x >= 0 then 2 * x else -2 * x - 1
  }

  function Zag(u: nat): int {
    if u % 2 == 0 then u / 2 else -(u / 2) - 1
  }

  lemma ZigZag(x: int, u: nat)
    ensures Zag(Zig(x)) == x
    ensures Zig(Zag(u)) == u
    ensures IsInt64(x) <==> Zig(x) < TWO64
    ensures IsInt32(x) <==> Zig(x) < TWO32
  {
  }

  // ------------------------------------------------------- encoding/binary

  /** What Uvarint must return: the value and bytes read, or 0 (short) or minus the bytes read (overflow). */
  function UvarintSpec(bs: Data): (r: (nat, int)) {
    var k := Term(bs);
    if k == |bs| then (0, 0)
    else if k > 9 || (k == 9 && bs[k] > 1) then (0, -(k + 1))
    else (Val(bs[..k + 1]), k + 1)
  }

  /** PutUvarint, filling a caller's buffer from the left. */
  method PutUvarint(buf: array<Byte>, x: nat) returns (n: nat)
    requires x < TWO64
    requires buf.Length >= 10
    modifies buf
    ensures n == |Enc(x)| <= 10
    ensures buf[..n] == Enc(x)
    ensures forall i :: n <= i < buf.Length ==> buf[i] == old(buf[i])
  {
    Enc64(x);
    var v: nat := x;
    n := 0;
    assert buf[..0] + Enc(v) == Enc(x);
    while v >= 128
      invariant v < TWO64 && n + |Enc(v)| == |Enc(x)|
      invariant buf[..n] + Enc(v) == Enc(x)
      invariant forall i :: n <= i < buf.Length ==> buf[i] == old(buf[i])
      decreases v
    {
      ghost var done := buf[..n];
      ghost var rest := Enc(v / 128);
      buf[n] := v % 128 + 128;
      n := n + 1;
      assert buf[..n] == done + [v % 128 + 128];
      assert done + ([v % 128 + 128] + rest) == buf[..n] + rest;
      v := v / 128;
    }
    ghost var done := buf[..n];
    buf[n] := v;
    n := n + 1;
    assert buf[..n] == done + [v];
  }

  lemma FitsBound(bs: Data, i: nat)
    requires i < |bs| && i <= 9 && (i == 9 ==> bs[i] <= 1)
    ensures Val(bs[..i + 1]) < TWO64
  {
    Pow128Nine();
    if i < 9 {
      ValBound(bs[..i + 1]);
      PowMono(i + 1, 9);
    } else {
      assert bs[..i + 1] == bs[..i] + [bs[i]];
      ValSnoc(bs[..i], bs[i]);
      ValBound(bs[..i]);
    }
  }

  /** Uvarint: the accumulating loop of encoding/binary. */
  method Uvarint(buf: Data) returns (x: nat, n: int)
    ensures (x, n) == UvarintSpec(buf)
    ensures n > 0 ==> x < TWO64
  {
    x := 0;
    var i: nat, p: nat := 0, 1;
    while i < |buf|
      invariant 0 <= i <= |buf| && p == Pow128(i)
      invariant forall j :: 0 <= j < i ==> buf[j] >= 128
      invariant x == Val(buf[..i])
    {
      var b := buf[i];
      assert buf[..i + 1] == buf[..i] + [b];
      ValSnoc(buf[..i], b);
      if b < 128 {
        TermUnique(buf, i);
        if i > 9 || (i == 9 && b > 1) {
          return 0, -(i + 1);
        }
        FitsBound(buf, i);
        return x + p * b, i + 1;
      }
      x := x + p * (b % 128);
      p := 128 * p;
      i := i + 1;
    }
    if Term(buf) < |buf| { assert false; }
    return 0, 0;
  }

  lemma {:induction false} PowMono(a: nat, b: nat)
    requires a <= b
    ensures Pow128(a) <= Pow128(b)
    decreases b
  {
    if a == b {
    } else {
      PowMono(a, b - 1);
    }
  }

  /** Reading what was written gives it back, whatever follows it. */
  lemma UvarintRoundTrip(x: nat, rest: Data)
    requires x < TWO64
    ensures UvarintSpec(Enc(x) + rest) == (x, |Enc(x)|)
  {
    TermEnc(x, rest);
    EncShape(x);
    Enc64(x);
  }
}
