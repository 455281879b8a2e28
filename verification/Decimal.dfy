/** Decimal numbers as the framings write and read them (fmt's %d and %010d, strconv.Atoi). */
module Decimal {
  import opened Bytes

  const ZERO: Byte := 48
  const NINE: Byte := 57
  const PLUS: Byte := 43
  const MINUS: Byte := 45

  predicate IsDigit(b: Byte) { ZERO <= b <= NINE }

  predicate AllDigits(d: Data) { forall i :: 0 <= i < |d| ==> IsDigit(d[i]) }

  /** The number a string of digits stands for. */
  function Value(d: Data): nat
    requires AllDigits(d)
  {
    if d == [] then 0 else 10 * Value(d[..|d| - 1]) + (d[|d| - 1] - ZERO)
  }

  /** %d of a number that is not negative. */
  function Digits(n: nat): (d: Data)
    ensures AllDigits(d) && 0 < |d|
  {
    if n < 10 then [n + ZERO] else Digits(n / 10) + [n % 10 + ZERO]
  }

  lemma {:induction false} DigitsValue(n: nat)
    ensures Value(Digits(n)) == n
  {
    var d := Digits(n);
    if n < 10 {
      assert d[..0] == [];
    } else {
      DigitsValue(n / 10);
      assert d[..|d| - 1] == Digits(n / 10);
    }
  }

  function Pow10(k: nat): (p: nat)
    ensures p > 0
  {
    if k == 0 then 1 else 10 * Pow10(k - 1)
  }

  lemma {:induction false} DigitsLength(n: nat, k: nat)
    requires k > 0
    ensures |Digits(n)| <= k <==> n < Pow10(k)
  {
    if k == 1 {
      assert Pow10(1) == 10 * Pow10(0);
    } else if n >= 10 {
      DigitsLength(n / 10, k - 1);
      assert Pow10(k) == 10 * Pow10(k - 1);
    } else {
      assert Pow10(k) == 10 * Pow10(k - 1) >= 10;
    }
  }

  lemma ValueSnoc(d: Data, b: Byte)
    requires AllDigits(d) && IsDigit(b)
    ensures AllDigits(d + [b]) && Value(d + [b]) == 10 * Value(d) + (b - ZERO)
  {
    assert (d + [b])[..|d|] == d;
  }

  lemma Distribute(x: nat, p: nat, y: nat)
    ensures 10 * (x * p + y) == x * (10 * p) + 10 * y
  {
  }

  lemma {:induction false} ValueSplit(a: Data, b: Data)
    requires AllDigits(a) && AllDigits(b)
    ensures AllDigits(a + b) && Value(a + b) == Value(a) * Pow10(|b|) + Value(b)
  {
    if b == [] {
      assert a + b == a;
    } else {
      var c, last := b[..|b| - 1], b[|b| - 1];
      ValueSplit(a, c);
      assert a + b == (a + c) + [last] && b == c + [last];
      ValueSnoc(a + c, last);
      ValueSnoc(c, last);
      Distribute(Value(a), Pow10(|c|), Value(c));
    }
  }

  function Zeros(k: nat): (d: Data)
    ensures |d| == k && forall i :: 0 <= i < k ==> d[i] == ZERO
  {
    seq(k, i requires 0 <= i < k => ZERO)
  }

  lemma {:induction false} ZerosValue(k: nat)
    ensures Value(Zeros(k)) == 0
  {
    if k == 0 {
    } else {
      ZerosValue(k - 1);
      assert Zeros(k)[..k - 1] == Zeros(k - 1);
    }
  }

  /** %010d: at least ten digits, filled up with zeros. */
  function Padded(n: nat): (d: Data)
    ensures AllDigits(d) && |d| >= 10
  {
    var d := Digits(n);
    if |d| < 10 then Zeros(10 - |d|) + d else d
  }

  lemma PaddedValue(n: nat)
    ensures Value(Padded(n)) == n
    ensures |Padded(n)| == 10 <==> n < Pow10(10)
  {
    DigitsValue(n);
    DigitsLength(n, 10);
    DigitsLength(n, 9);
    var d := Digits(n);
    if |d| < 10 {
      ZerosValue(10 - |d|);
      ValueSplit(Zeros(10 - |d|), d);
    }
  }

  /** strconv.Atoi on a 64-bit machine: an optional sign, then digits, within range. */
  function Atoi(d: Data): Option<int> {
    var signed := d != [] && (d[0] == PLUS || d[0] == MINUS);
    var body := if signed then d[1..] else d;
    if body == [] || !AllDigits(body) then None
    else
      var v: int := if signed && d[0] == MINUS then 0 - Value(body) else Value(body);
      if IsInt64(v) then Some(v) else None
  }

  lemma AtoiDigits(n: nat)
    requires IsInt64(n)
    ensures Atoi(Digits(n)) == Some(n)
  {
    DigitsValue(n);
    assert IsDigit(Digits(n)[0]);
  }

  /** %d of any number. */
  function IntText(n: int): (d: Data)
    ensures d != []
  {
    if n < 0 then [MINUS] + Digits(-n) else Digits(n)
  }

  lemma AtoiInt(n: int)
    requires IsInt64(n)
    ensures Atoi(IntText(n)) == Some(n)
  {
    if n < 0 {
      DigitsValue(-n);
      assert IntText(n)[1..] == Digits(-n);
    } else {
      AtoiDigits(n);
    }
  }

  lemma AtoiDigitString(d: Data)
    requires AllDigits(d) && 0 < |d| && IsInt64(Value(d))
    ensures Atoi(d) == Some(Value(d))
  {
    assert IsDigit(d[0]);
  }

  /** Ten digits always fit. */
  lemma {:induction false} ValueBound(d: Data)
    requires AllDigits(d)
    ensures Value(d) < Pow10(|d|)
  {
    if d == [] {
    } else {
      ValueBound(d[..|d| - 1]);
    }
  }

  lemma Pow10Ten()
    ensures Pow10(10) == 10_000_000_000
  {
    assert Pow10(1) == 10 * Pow10(0);
    assert Pow10(2) == 10 * Pow10(1);
    assert Pow10(3) == 10 * Pow10(2);
    assert Pow10(4) == 10 * Pow10(3);
    assert Pow10(5) == 10 * Pow10(4);
    assert Pow10(6) == 10 * Pow10(5);
    assert Pow10(7) == 10 * Pow10(6);
    assert Pow10(8) == 10 * Pow10(7);
    assert Pow10(9) == 10 * Pow10(8);
  }
}
