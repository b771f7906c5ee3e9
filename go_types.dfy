/** Go's fixed-width integers, as used by the configuration records
    (a Go `int` is 64 bits wide on the platforms the system targets). */
module GoTypes {

  const Int64Min: int := -0x8000_0000_0000_0000
  const Int64Modulus: int := 0x1_0000_0000_0000_0000

  newtype int64 = x: int | -0x8000_0000_0000_0000 <= x < 0x8000_0000_0000_0000

  newtype int16 = x: int | -0x8000 <= x < 0x8000

  /** The two's-complement wrap-around Go applies to an int64 result that
      does not fit: the representative of x modulo 2^64 in the int64 range. */
  function Wrap64(x: int): (r: int64)
    ensures Int64Min <= x < -Int64Min ==> r as int == x
    ensures (x - r as int) % Int64Modulus == 0
  {
    var m := x % Int64Modulus;
    if m >= -Int64Min then (m - Int64Modulus) as int64 else m as int64
  }
}
