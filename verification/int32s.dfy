/** C#'s `int`: a 32-bit two's-complement integer whose `+` wraps around in
    the default unchecked context. */
module Int32s {

  const MinValue: int := -0x8000_0000
  const MaxValue: int := 0x7FFF_FFFF
  const Modulus: int := 0x1_0000_0000

  type int32 = x: int | MinValue <= x <= MaxValue

  /** Reduces a mathematical integer to the 32-bit value unchecked arithmetic yields. */
  function Wrap(x: int): (r: int32)
    ensures MinValue <= x <= MaxValue ==> r == x
    ensures (x - r) % Modulus == 0
  {
    (x - MinValue) % Modulus + MinValue
  }
}
