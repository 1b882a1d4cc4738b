/** Byte strings and the fixed-width arithmetic the rest of the model is written in. */
module Bytes {
  type byte = b: int | 0 <= b < 256

  type Buffer = seq<byte>

  datatype Option<+T> = None | Some(value: T)

  const TWO_32 := 0x1_0000_0000
  const TWO_63 := 0x8000_0000_0000_0000
  const TWO_64 := 0x1_0000_0000_0000_0000

  type uint32 = n: int | 0 <= n < TWO_32
  type uint64 = n: int | 0 <= n < TWO_64

  function Pow2(n: nat): (r: nat)
    ensures r > 0
  {
    if n == 0 then 1 else 2 * Pow2(n - 1)
  }

  lemma {:induction false} Pow2Monotone(m: nat, n: nat)
    requires m <= n
    ensures Pow2(m) <= Pow2(n)
  {
    if m < n {
      Pow2Monotone(m, n - 1);
    }
  }

  /** uint32 wrap-around. */
  function U32(x: nat): uint32 {
    if x < TWO_32 then x else x % TWO_32
  }

  lemma Associate(a: Buffer, b: Buffer, c: Buffer)
    ensures a + b + c == a + (b + c)
  {
  }

  function Min(a: int, b: int): int {
    if a < b then a else b
  }

  /** One of the two sequences is a prefix of the other. */
  predicate Compatible<T(==)>(a: seq<T>, b: seq<T>) {
    a <= b || b <= a
  }
}
