/** Trimming and searching byte strings (Go's bytes package). */
module Text {
  import opened Bytes

  function TrimLeft(d: Data, cut: set<Byte>): (r: Data)
    ensures |r| <= |d|
  {
    if d == [] || d[0] !in cut then d else TrimLeft(d[1..], cut)
  }

  function TrimRight(d: Data, cut: set<Byte>): (r: Data)
    ensures |r| <= |d|
  {
    if d == [] || d[|d| - 1] !in cut then d else TrimRight(d[..|d| - 1], cut)
  }

  function Trim(d: Data, cut: set<Byte>): Data {
    TrimRight(TrimLeft(d, cut), cut)
  }

  predicate Without(d: Data, cut: set<Byte>) {
    forall i :: 0 <= i < |d| ==> d[i] !in cut
  }

  /** bytes.IndexAny: the first position of one of the bytes, or -1. */
  function IndexAny(d: Data, any: set<Byte>): (r: int)
    ensures -1 <= r < |d|
  {
    if d == [] then -1
    else if d[0] in any then 0
    else
      var r := IndexAny(d[1..], any);
      if r == -1 then -1 else r + 1
  }

  lemma {:induction false} IndexFirst(d: Data, any: set<Byte>)
    ensures IndexAny(d, any) == -1 ==> Without(d, any)
    ensures
      IndexAny(d, any) >= 0 ==>
      d[IndexAny(d, any)] in any && Without(d[..IndexAny(d, any)], any)
  {
    if d == [] || d[0] in any {
    } else {
      var r := IndexAny(d[1..], any);
      IndexFirst(d[1..], any);
      if r >= 0 { assert d[..r + 1] == [d[0]] + d[1..][..r]; }
      if r == -1 { assert d == [d[0]] + d[1..]; }
    }
  }

  lemma {:induction false} IndexIs(d: Data, any: set<Byte>, k: nat)
    requires k < |d| && d[k] in any && Without(d[..k], any)
    ensures IndexAny(d, any) == k
  {
    if k == 0 {
    } else {
      assert d[0] == d[..k][0];
      assert d[1..][..k - 1] == d[..k][1..];
      IndexIs(d[1..], any, k - 1);
    }
  }

  lemma IndexStays(d: Data, any: set<Byte>, x: Data)
    requires IndexAny(d, any) >= 0
    ensures IndexAny(d + x, any) == IndexAny(d, any)
  {
    var r := IndexAny(d, any);
    IndexFirst(d, any);
    assert (d + x)[..r] == d[..r];
    IndexIs(d + x, any, r);
  }

  lemma {:induction false} TrimLeftAppend(d: Data, cut: set<Byte>, x: Data)
    ensures TrimLeft(d, cut) != [] ==> TrimLeft(d + x, cut) == TrimLeft(d, cut) + x
    ensures TrimLeft(d, cut) == [] ==> TrimLeft(d + x, cut) == TrimLeft(x, cut)
  {
    if d == [] {
      assert d + x == x;
    } else if d[0] in cut {
      TrimLeftAppend(d[1..], cut, x);
      assert (d + x)[1..] == d[1..] + x;
    }
  }

  lemma {:induction false} TrimNothing(d: Data, cut: set<Byte>)
    requires Without(d, cut)
    ensures Trim(d, cut) == d
  {
  }

  /** Trimming leaves exactly the strings without blanks at either end alone. */
  lemma TrimKeeps(d: Data, cut: set<Byte>)
    requires d != []
    ensures Trim(d, cut) == d <==> d[0] !in cut && d[|d| - 1] !in cut
  {
    if d[0] in cut {
      assert |TrimLeft(d, cut)| <= |d[1..]|;
    }
  }

  lemma SliceStays(d: Data, x: Data, from: nat, to: nat)
    requires from <= to <= |d|
    ensures (d + x)[from..to] == d[from..to]
  {
  }

  lemma {:induction false} TrimmedStart(d: Data, cut: set<Byte>)
    ensures TrimLeft(d, cut) != [] ==> TrimLeft(d, cut)[0] !in cut
  {
    if d == [] || d[0] !in cut {
    } else {
      TrimmedStart(d[1..], cut);
    }
  }
}
