/** Go's fixed-width integers and the conversions between them, with two's-complement wrap-around. */
module GoInts {

  const MaxInt32: int := 0x7fff_ffff
  const MinInt32: int := -0x8000_0000
  const Uint32Modulus: int := 0x1_0000_0000

  newtype int32 = x: int | -0x8000_0000 <= x < 0x8000_0000
  newtype uint32 = x: int | 0 <= x < 0x1_0000_0000

  /** Go's `int32(n)`: keeps the low 32 bits, read as a signed number. */
  function Int32Of(n: int): (r: int32)
    ensures MinInt32 <= n <= MaxInt32 ==> r as int == n
    ensures (r as int - n) % Uint32Modulus == 0
  {
    ((n - MinInt32) % Uint32Modulus + MinInt32) as int32
  }

  /** Go's `uint32(n)`: keeps the low 32 bits, read as an unsigned number. */
  function Uint32Of(n: int): (r: uint32)
    ensures 0 <= n < Uint32Modulus ==> r as int == n
    ensures (r as int - n) % Uint32Modulus == 0
  {
    (n % Uint32Modulus) as uint32
  }

  function Min(a: int, b: int): (m: int)
    ensures m <= a && m <= b && (m == a || m == b)
  {
    if a <= b then a else b
  }
}
