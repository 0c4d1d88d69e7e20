/** Bytes, and the numbers that two or four of them stand for. */
module Bytes {

  type Byte = n: int | 0 <= n < 256

  /** Big endian, unsigned. */
  function FromBE2(b0: int, b1: int): int {
    b0 * 0x100 + b1
  }

  function FromBE4(b0: int, b1: int, b2: int, b3: int): int {
    b0 * 0x100_0000 + b1 * 0x1_0000 + b2 * 0x100 + b3
  }

  /** The signed 32-bit integer whose bits are the low 32 bits of u. */
  function Signed32(u: int): (i: int)
    ensures -0x8000_0000 <= i < 0x8000_0000
  {
    var w := u % 0x1_0000_0000;
    if w < 0x8000_0000 then w else w - 0x1_0000_0000
  }
}
