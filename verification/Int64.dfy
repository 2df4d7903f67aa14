/** Go's int64 on unbounded integers. */
module Int64 {
  const MAX_INT64: int := 0x7fff_ffff_ffff_ffff
  const TWO_64: int := 0x1_0000_0000_0000_0000

  type Int64 = x: int | -MAX_INT64 - 1 <= x <= MAX_INT64

  /** A sum or a doubling of int64 values as the machine computes it. */
  function Wrap64(x: int): int {
    if x > MAX_INT64 then x - TWO_64
    else if x < -MAX_INT64 - 1 then x + TWO_64
    else x
  }
}
