/** Bytes and the option type shared by the codecs. */
module Bytes {

  type Byte = x: int | 0 <= x < 256

  type Data = seq<Byte>

  datatype Option<+T> = None | Some(value: T)

  const TWO32: int := 0x1_0000_0000
  const TWO63: int := 0x8000_0000_0000_0000
  const TWO64: int := 0x1_0000_0000_0000_0000

  predicate IsInt32(x: int) { -0x8000_0000 <= x < 0x8000_0000 }

  predicate IsInt64(x: int) { -TWO63 <= x < TWO63 }

  /** The low bits of a number, read as a signed number. */
  function Signed64(u: nat): int {
    var t: int := u % TWO64;
    if t < TWO63 then t else t - TWO64
  }

  function Signed32(u: nat): int {
    var t: int := u % TWO32;
    if t < TWO32 / 2 then t else t - TWO32
  }

  // ------------------------------------------------------------ grouping

  lemma Assoc(x: Data, y: Data, z: Data)
    ensures x + y + z == x + (y + z)
  {
  }

  lemma Regroup(a: Data, b: Data, c: Data, d: Data)
    ensures a + b + c + d == a + (b + c + d)
    ensures a + (b + (c + d)) == a + (b + c) + d
  {
  }

  lemma RegroupFields(lead: Data, a: Data, sep: Data, b: Data, c: Data, rest: Data)
    ensures lead + (a + sep + b + sep + c) + rest == lead + a + (sep + b + (sep + c + rest))
  {
  }

  /** The outcome of reading from the front of a string: a value and the unread rest. */
  datatype Read<T> = Bad | Got(value: T, rest: Data) {
    predicate IsFailure() { Bad? }
    function PropagateFailure<U>(): Read<U> { Bad }
    function Extract(): (T, Data) requires Got? { (value, rest) }
  }
}
