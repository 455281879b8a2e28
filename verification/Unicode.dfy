/** UTF-8, and what reading a string character by character makes of other bytes (Go's unicode/utf8 and []rune). */
module Unicode {
  import opened Bytes

  predicate Tail(b: Byte) { 0x80 <= b <= 0xBF }

  /** The length of the UTF-8 character that a string starts with, or 0. */
  function Rune(d: Data): (n: nat)
    ensures n <= |d|
  {
    if |d| >= 1 && d[0] < 0x80 then 1
    else if |d| >= 2 && 0xC2 <= d[0] <= 0xDF && Tail(d[1]) then 2
    else if |d| >= 3 && 0xE0 <= d[0] <= 0xEF && Tail(d[1]) && Tail(d[2])
         && (d[0] == 0xE0 ==> d[1] >= 0xA0) && (d[0] == 0xED ==> d[1] <= 0x9F) then 3
    else if |d| >= 4 && 0xF0 <= d[0] <= 0xF4 && Tail(d[1]) && Tail(d[2]) && Tail(d[3])
         && (d[0] == 0xF0 ==> d[1] >= 0x90) && (d[0] == 0xF4 ==> d[1] <= 0x8F) then 4
    else 0
  }

  /** utf8.ValidString. */
  predicate Utf8(d: Data) { d == [] || (Rune(d) > 0 && Utf8(d[Rune(d)..])) }

  /** U+FFFD, which stands for a byte that starts no character. */
  const REPLACEMENT: Data := [0xEF, 0xBF, 0xBD]

  /** A string turned into characters and back. */
  function Runes(d: Data): Data {
    if d == [] then []
    else if Rune(d) == 0 then REPLACEMENT + Runes(d[1..])
    else d[..Rune(d)] + Runes(d[Rune(d)..])
  }

  /** Nothing gets shorter, and exactly UTF-8 keeps its length. */
  lemma {:induction false} RunesLength(d: Data)
    ensures |Runes(d)| >= |d|
    ensures |Runes(d)| == |d| <==> Utf8(d)
  {
    if d == [] {
    } else if Rune(d) == 0 {
      RunesLength(d[1..]);
    } else {
      RunesLength(d[Rune(d)..]);
    }
  }

  lemma {:induction false} RunesUtf8(d: Data)
    requires Utf8(d)
    ensures Runes(d) == d
  {
    if d == [] {
    } else {
      RunesUtf8(d[Rune(d)..]);
      assert d == d[..Rune(d)] + d[Rune(d)..];
    }
  }

  /** Exactly UTF-8 is left alone. */
  lemma RunesKeeps(d: Data)
    ensures Runes(d) == d <==> Utf8(d)
  {
    RunesLength(d);
    if Utf8(d) { RunesUtf8(d); }
  }

  /** A character at the front does not depend on what follows it. */
  lemma RuneAppend(a: Data, b: Data)
    requires Rune(a) > 0
    ensures Rune(a + b) == Rune(a)
    ensures (a + b)[..Rune(a)] == a[..Rune(a)] && (a + b)[Rune(a)..] == a[Rune(a)..] + b
  {
  }

  lemma {:induction false} Utf8Append(a: Data, b: Data)
    requires Utf8(a)
    ensures Utf8(a + b) <==> Utf8(b)
    ensures Runes(a + b) == a + Runes(b)
  {
    if a == [] {
      assert a + b == b;
    } else {
      RuneAppend(a, b);
      Utf8Append(a[Rune(a)..], b);
      RunesJoin(a, b);
    }
  }

  lemma RunesJoin(a: Data, b: Data)
    requires Rune(a) > 0 && Runes(a[Rune(a)..] + b) == a[Rune(a)..] + Runes(b)
    ensures Runes(a + b) == a + Runes(b)
  {
    RuneAppend(a, b);
    assert a[..Rune(a)] + (a[Rune(a)..] + Runes(b)) == a + Runes(b);
  }

  lemma {:induction false} AsciiUtf8(d: Data)
    requires forall i :: 0 <= i < |d| ==> d[i] < 0x80
    ensures Utf8(d)
  {
    if d == [] {
    } else {
      AsciiUtf8(d[1..]);
    }
  }

  lemma RuneAlone(d: Data)
    requires Rune(d) > 0
    ensures Utf8(d[..Rune(d)])
  {
    assert d[..Rune(d)][Rune(d)..] == [];
    assert Rune(d[..Rune(d)]) == Rune(d);
  }

  /** A character of more than one byte has no byte of ASCII. */
  lemma RuneBytes(d: Data)
    requires Rune(d) > 1
    ensures forall i :: 0 <= i < Rune(d) ==> d[i] >= 0x80
  {
  }
}
