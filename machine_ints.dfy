/** The fixed-width C integer types of the siba(4) structures, and the two
    width effects the model needs: unsigned wrap-around and the conversion of an
    unsigned value to a signed `int`. */
module MachineInts {

  const Two32: int := 0x1_0000_0000
  const Int32Max: int := 0x7fff_ffff

  type u8 = x: int | 0 <= x < 0x100
  type u16 = x: int | 0 <= x < 0x1_0000
  type u32 = x: int | 0 <= x < 0x1_0000_0000
  type u64 = x: int | 0 <= x < 0x1_0000_0000_0000_0000
  type i32 = x: int | -0x8000_0000 <= x < 0x8000_0000

  /** The value of an `unsigned int` expression: the exact value reduced modulo 2^32. */
  function WrapU32(x: int): (r: u32)
    ensures 0 <= x < Two32 ==> r == x
    ensures (x - r) % Two32 == 0
  {
    x % Two32
  }

  /** Storing an `unsigned int` into an `int` on the two's-complement targets the
      driver is built for: values above INT_MAX come out negative. */
  function U32ToI32(u: u32): (r: i32)
    ensures u <= Int32Max ==> r == u
    ensures u > Int32Max ==> r < 0
    ensures (u - r) % Two32 == 0
  {
    if u <= Int32Max then u else u - Two32
  }
}
