/** 32-bit words, bytes and registers of the simulators (risc/risc.go, risc/bit.go). */
module Words {
  /** Go's int32 and int8: the values, with wrap-around written out by `Wrap` and `LowByte`. */
  type Word = x: int | -0x8000_0000 <= x < 0x8000_0000
  type Byte = x: int | -0x80 <= x < 0x80

  type Reg = r: nat | r < 32

  const ZERO: Reg := 0
  const RA: Reg := 1

  datatype Option<+T> = None | Some(value: T)

  /** int32 wrap-around. */
  function Wrap(x: int): (w: Word)
    ensures -0x8000_0000 <= x < 0x8000_0000 ==> w == x
  {
    (x + 0x8000_0000) % 0x1_0000_0000 - 0x8000_0000
  }

  /** Conversion of any integer to int8. */
  function LowByte(x: int): (b: Byte)
    ensures -0x80 <= x < 0x80 ==> b == x
  {
    (x + 0x80) % 0x100 - 0x80
  }

  /** Go's division of a program counter by four: it truncates towards zero. */
  function Index(pc: Word): int {
    if pc < 0 then -((0 - pc) / 4) else pc / 4
  }

  function Pow2(n: nat): (p: nat)
    ensures p >= 1
  {
    if n == 0 then 1 else 2 * Pow2(n - 1)
  }

  /** Byte k (0 is the lowest) of the two's-complement form of n. */
  function ByteOf(n: Word, k: nat): Byte {
    LowByte(n / Pow2(8 * k))
  }

  /** The word whose little-endian two's-complement bytes are given. */
  function WordOf(b0: Byte, b1: Byte, b2: Byte, b3: Byte): Word {
    Wrap(b0 % 0x100 + 0x100 * (b1 % 0x100) + 0x1_0000 * (b2 % 0x100) + 0x100_0000 * (b3 % 0x100))
  }

  /** The registers are a Go map: a missing key reads as 0. */
  type Regs = map<Reg, Word>

  function Read(regs: Regs, r: Reg): Word {
    if r in regs then regs[r] else 0
  }

  /** Both maps give every register the same value. */
  ghost predicate SameRegs(a: Regs, b: Regs) {
    forall r: Reg :: Read(a, r) == Read(b, r)
  }
}
