/** Timestamps as stored in the Failed and PermErrors queues (utils/conv.go). */
module Conv {
  import opened Bytes
  import opened Varint

  /** The stored form of a timestamp given in nanoseconds since the epoch. */
  function TimeBytes(t: int): Data { Enc(Zig(t)) }

  /** The timestamp read back and the number of bytes read; not positive when the bytes are no timestamp. */
  function TimeOf(b: Data): (int, int) {
    var (u, n) := UvarintSpec(b);
    if n <= 0 then (0, n) else (Zag(u), n)
  }

  /** Time2Bytes: uses the caller's buffer when it is large enough, else a new one. */
  method Time2Bytes(t: int, dst: array<Byte>) returns (r: Data)
    requires IsInt64(t)
    modifies dst
    ensures r == TimeBytes(t)
    ensures dst.Length < 10 ==> dst[..] == old(dst[..])
  {
    ZigZag(t, 0);
    var buf := dst;
    if dst.Length < 10 {
      buf := new Byte[10];
    }
    var n := PutUvarint(buf, Zig(t));
    return buf[..n];
  }

  method Bytes2Time(b: Data) returns (t: int, n: int)
    ensures (t, n) == TimeOf(b)
    ensures n > 0 ==> IsInt64(t)
  {
    var u;
    u, n := Uvarint(b);
    if n <= 0 {
      return 0, n;
    }
    ZigZag(0, u);
    ZigZag(Zag(u), u);
    return Zag(u), n;
  }

  /** What is read is a 64-bit timestamp. */
  lemma TimeFits(b: Data)
    ensures TimeOf(b).1 > 0 ==> IsInt64(TimeOf(b).0)
  {
    var (u, n) := UvarintSpec(b);
    if n > 0 {
      FitsBound(b, n - 1);
      ZigZag(Zag(u), u);
    }
  }

  /** Every 64-bit timestamp that was stored is read back, so it is never taken for an invalid entry. */
  lemma TimeRoundTrip(t: int, rest: Data)
    requires IsInt64(t)
    ensures TimeOf(TimeBytes(t) + rest) == (t, |TimeBytes(t)|)
    ensures 0 < |TimeBytes(t)| <= 10
  {
    ZigZag(t, 0);
    Enc64(Zig(t));
    UvarintRoundTrip(Zig(t), rest);
  }
}
