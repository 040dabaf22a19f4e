/** Bytes of words and words of bytes, bit by bit (risc/bit.go), and what stores and loads make of them. */
module Bits {
  import opened Words
  import opened Isa

  // ---------------------------------------------------------------- single bits

  /** Bit k of the two's-complement form of n, however wide. */
  predicate Bit(n: int, k: nat) { (n / Pow2(k)) % 2 == 1 }

  function SetByteBit(n: Byte, k: nat): Byte { if Bit(n, k) then n else LowByte(n + Pow2(k)) }

  function SetWordBit(n: Word, k: nat): Word { if Bit(n, k) then n else Wrap(n + Pow2(k)) }

  lemma {:induction false} AtLeast(d: nat, k: int)
    ensures k >= 1 ==> d * k >= d
    ensures k <= -1 ==> d * k <= 0 - d
    decreases if k < 0 then -k else k
  {
    if k > 1 { AtLeast(d, k - 1); }
    if k < -1 { AtLeast(d, k + 1); }
  }

  lemma DivisionIsUnique(n: int, d: nat, q: int, r: int)
    requires d > 0 && n == d * q + r && 0 <= r < d
    ensures n / d == q && n % d == r
  {
    var t := n / d - q;
    assert d * t == d * (n / d) - d * q;
    AtLeast(d, t);
  }

  lemma DivideTwice(n: int, a: nat, b: nat)
    requires a > 0 && b > 0
    ensures n / (a * b) == n / a / b
  {
    var m, r := n / a, n % a;
    var q, r1 := m / b, m % b;
    Distributes(a, b * q, r1);
    Associates(a, b, q);
    ProductBounds(a, r1, b);
    DivisionIsUnique(n, a * b, q, a * r1 + r);
  }

  lemma Distributes(a: int, b: int, c: int)
    ensures a * (b + c) == a * b + a * c
  {
  }

  lemma Associates(a: int, b: int, c: int)
    ensures a * (b * c) == a * b * c
  {
  }

  /** A multiple of a below a * c leaves room for another a. */
  lemma ProductBounds(a: nat, b: int, c: int)
    requires 0 <= b < c
    ensures 0 <= a * b <= a * c - a
  {
    AtLeast(a, c - b);
    Distributes(a, b, c - b);
    if b > 0 { AtLeast(a, b); }
  }

  lemma {:induction false} PowersMultiply(a: nat, b: nat)
    ensures Pow2(a + b) == Pow2(a) * Pow2(b)
  {
    if a > 0 { PowersMultiply(a - 1, b); }
  }

  /** The low k + 1 bits are the low k bits and bit k. */
  lemma OneMoreBit(n: int, k: nat)
    ensures n % Pow2(k + 1) == n % Pow2(k) + (if Bit(n, k) then Pow2(k) else 0)
  {
    var p := Pow2(k);
    var q, r := n / p, n % p;
    assert n == p * q + r;
    var h, b := q / 2, q % 2;
    assert n == (2 * p) * h + (p * b + r);
    assert p * b == if b == 1 then p else 0;
    DivisionIsUnique(n, 2 * p, h, p * b + r);
  }

  lemma {:induction false} PowersGrow(a: nat, b: nat)
    requires a <= b
    ensures Pow2(a) <= Pow2(b)
  {
    if a < b { PowersGrow(a, b - 1); }
  }

  lemma SmallHasNoHighBit(n: int, k: nat)
    requires 0 <= n < Pow2(k)
    ensures !Bit(n, k)
  {
    DivisionIsUnique(n, Pow2(k), 0, n);
  }

  lemma Powers()
    ensures Pow2(7) == 0x80 && Pow2(8) == 0x100 && Pow2(16) == 0x1_0000 && Pow2(24) == 0x100_0000
    ensures Pow2(31) == 0x8000_0000 && Pow2(32) == 0x1_0000_0000
  {
    assert Pow2(4) == 16;
    PowersMultiply(4, 4);
    PowersMultiply(7, 1);
    PowersMultiply(8, 8);
    PowersMultiply(16, 8);
    PowersMultiply(16, 16);
    PowersMultiply(31, 1);
  }

  // ---------------------------------------------------------------- the loops

  /** Eight bits of n from bit `lo` on. */
  method Octet(n: Word, lo: nat) returns (b: Byte)
    ensures b == LowByte(n / Pow2(lo))
  {
    b := 0;
    ghost var m := n / Pow2(lo);
    var i := lo;
    while i < lo + 8
      invariant lo <= i <= lo + 8
      invariant b == LowByte(m % Pow2(i - lo))
    {
      var k := i - lo;
      PowersMultiply(lo, k);
      DivideTwice(n, Pow2(lo), Pow2(k));
      OneMoreBit(m, k);
      OctetStep(m, k);
      if Bit(n, i) {
        b := SetByteBit(b, k);
      }
      i := i + 1;
    }
    Powers();
    LowByteOfMod(m);
  }

  lemma OctetStep(m: int, k: nat)
    requires k < 8
    ensures Bit(m, k) ==> SetByteBit(LowByte(m % Pow2(k)), k) == LowByte(m % Pow2(k + 1))
  {
    var low := m % Pow2(k);
    Powers();
    PowersGrow(k, 7);
    OneMoreBit(m, k);
    assert LowByte(low) == low;
    SmallHasNoHighBit(low, k);
  }

  lemma LowByteOfMod(m: int)
    ensures LowByte(m % 0x100) == LowByte(m)
  {
  }

  method BytesFromLowBits(n: Word) returns (b0: Byte, b1: Byte, b2: Byte, b3: Byte)
    ensures [b0, b1, b2, b3] == StoredBytes(FourBytes, n)
  {
    b0 := Octet(n, 0);
    b1 := Octet(n, 8);
    b2 := Octet(n, 16);
    b3 := Octet(n, 24);
  }

  /** Sets bit `at` + i of the result for every bit i of b, on top of `at` bits that are already there. */
  method AddOctet(base: Word, at: nat, b: Byte) returns (w: Word)
    requires 0 <= base < Pow2(at) && at + 8 <= 32
    ensures w == Wrap(base + Pow2(at) * (b % 0x100))
  {
    w := base;
    assert Pow2(at) * (b % Pow2(0)) == 0;
    var i := 0;
    while i < 8
      invariant i <= 8
      invariant w == Wrap(base + Pow2(at) * (b % Pow2(i)))
    {
      WordStep(base, at, b, i);
      if Bit(b, i) {
        w := SetWordBit(w, at + i);
      }
      i := i + 1;
    }
    Powers();
  }

  lemma PartialIsSmall(base: int, at: nat, low: int, i: nat)
    requires 0 <= base < Pow2(at) && 0 <= low < Pow2(i)
    ensures 0 <= base + Pow2(at) * low < Pow2(at + i)
  {
    PowersMultiply(at, i);
    ProductBounds(Pow2(at), low, Pow2(i));
    hide Pow2;
  }

  lemma WrapBelow(n: int, p: int)
    requires 0 <= n < p <= 0x8000_0000
    ensures Wrap(n) == n
  {
  }

  lemma SetHighBit(n: int, k: nat)
    requires 0 <= n < Pow2(k) && k <= 31
    ensures Wrap(n) == n && SetWordBit(Wrap(n), k) == Wrap(n + Pow2(k))
  {
    hide Pow2, Bit, Wrap;
    PowersGrow(k, 31);
    Powers();
    SmallHasNoHighBit(n, k);
    WrapBelow(n, Pow2(k));
  }

  lemma WordStep(base: int, at: nat, b: Byte, i: nat)
    requires 0 <= base < Pow2(at) && at + 8 <= 32 && i < 8
    ensures var w := Wrap(base + Pow2(at) * (b % Pow2(i)));
            (if Bit(b, i) then SetWordBit(w, at + i) else w) == Wrap(base + Pow2(at) * (b % Pow2(i + 1)))
  {
    var low := b % Pow2(i);
    OneMoreBit(b, i);
    PartialIsSmall(base, at, low, i);
    SetHighBit(base + Pow2(at) * low, at + i);
    PowersMultiply(at, i);
    Distributes(Pow2(at), low, Pow2(i));
    hide Bit, SetWordBit, Wrap, Pow2;
  }

  method I32FromBytes(b0: Byte, b1: Byte, b2: Byte, b3: Byte) returns (w: Word)
    ensures w == WordOf(b0, b1, b2, b3)
  {
    Powers();
    w := AddOctet(0, 0, b0);
    w := AddOctet(w, 8, b1);
    w := AddOctet(w, 16, b2);
    w := AddOctet(w, 24, b3);
  }

  // ---------------------------------------------------------------- a bijection

  lemma BytesSplit(n: Word)
    ensures ByteOf(n, 0) == LowByte(n) && ByteOf(n, 1) == LowByte(n / 0x100)
    ensures ByteOf(n, 2) == LowByte(n / 0x1_0000) && ByteOf(n, 3) == LowByte(n / 0x100_0000)
  {
    Powers();
  }

  lemma LowByteMod(x: int)
    ensures LowByte(x) % 0x100 == x % 0x100
  {
  }

  /** Any integer as three bytes and a rest, and what dividing it leaves. */
  lemma Digits(u0: int, u1: int, u2: int, h: int, n: int)
    requires 0 <= u0 < 0x100 && 0 <= u1 < 0x100 && 0 <= u2 < 0x100
    requires n == u0 + 0x100 * u1 + 0x1_0000 * u2 + 0x100_0000 * h
    ensures n % 0x100 == u0 && (n / 0x100) % 0x100 == u1 && (n / 0x1_0000) % 0x100 == u2 && n / 0x100_0000 == h
    ensures n / 0x100 == u1 + 0x100 * u2 + 0x1_0000 * h && n / 0x1_0000 == u2 + 0x100 * h
  {
    DivisionIsUnique(n, 0x100, u1 + 0x100 * u2 + 0x1_0000 * h, u0);
    DivisionIsUnique(n, 0x1_0000, u2 + 0x100 * h, u0 + 0x100 * u1);
    DivisionIsUnique(n, 0x100_0000, h, u0 + 0x100 * u1 + 0x1_0000 * u2);
    DivisionIsUnique(n / 0x100, 0x100, u2 + 0x100 * h, u1);
    DivisionIsUnique(n / 0x1_0000, 0x100, h, u2);
  }

  lemma DigitsExist(n: int) returns (u0: int, u1: int, u2: int, h: int)
    ensures 0 <= u0 < 0x100 && 0 <= u1 < 0x100 && 0 <= u2 < 0x100
    ensures n == u0 + 0x100 * u1 + 0x1_0000 * u2 + 0x100_0000 * h
  {
    u0, u1, u2 := n % 0x100, (n / 0x100) % 0x100, (n / 0x100 / 0x100) % 0x100;
    h := n / 0x100 / 0x100 / 0x100;
  }

  lemma SignedByte(h: int)
    requires -0x80 <= h < 0x80
    ensures LowByte(h) == h && h % 0x100 == if h < 0 then h + 0x100 else h
  {
  }

  lemma WrapOnce(n: Word)
    ensures Wrap(n) == n && Wrap(n + 0x1_0000_0000) == n
  {
  }

  /** Packing the four bytes of a word gives the word. */
  lemma PackUnpack(n: Word)
    ensures WordOf(ByteOf(n, 0), ByteOf(n, 1), ByteOf(n, 2), ByteOf(n, 3)) == n
  {
    var u0, u1, u2, h := DigitsExist(n);
    BytesSplit(n);
    Digits(u0, u1, u2, h, n);
    LowByteMod(n);
    LowByteMod(n / 0x100);
    LowByteMod(n / 0x1_0000);
    SignedByte(h);
    WrapOnce(n);
    hide LowByte, Wrap, ByteOf;
  }

  lemma WrapLowers(u: int)
    requires 0 <= u < 0x1_0000_0000
    ensures Wrap(u) == if u < 0x8000_0000 then u else u - 0x1_0000_0000
  {
  }

  lemma ByteDigit(b: Byte)
    ensures LowByte(b % 0x100) == b && 0 <= b % 0x100 < 0x100 && (b % 0x100 < 0x80 <==> b >= 0)
    ensures b % 0x100 == if b < 0 then b + 0x100 else b
  {
  }

  lemma LowByteOfDigit(x: int, u: int)
    requires x % 0x100 == u
    ensures LowByte(x) == LowByte(u)
  {
  }

  /** The bytes of a packed word are the bytes packed. */
  lemma UnpackPack(b0: Byte, b1: Byte, b2: Byte, b3: Byte)
    ensures StoredBytes(FourBytes, WordOf(b0, b1, b2, b3)) == [b0, b1, b2, b3]
  {
    var u0, u1, u2, u3 := b0 % 0x100, b1 % 0x100, b2 % 0x100, b3 % 0x100;
    var w := WordOf(b0, b1, b2, b3);
    ByteDigit(b0);
    ByteDigit(b1);
    ByteDigit(b2);
    ByteDigit(b3);
    WrapLowers(u0 + 0x100 * u1 + 0x1_0000 * u2 + 0x100_0000 * u3);
    Digits(u0, u1, u2, b3, w);
    BytesSplit(w);
    LowByteOfDigit(w, u0);
    LowByteOfDigit(w / 0x100, u1);
    LowByteOfDigit(w / 0x1_0000, u2);
    hide LowByte, Wrap, ByteOf;
  }

  lemma HalfOf(n: Word)
    ensures WordOf(ByteOf(n, 0), ByteOf(n, 1), 0, 0) == n % 0x1_0000
  {
    var u0, u1, u2, h := DigitsExist(n);
    BytesSplit(n);
    Digits(u0, u1, u2, h, n);
    DivisionIsUnique(n, 0x1_0000, u2 + 0x100 * h, u0 + 0x100 * u1);
    LowByteMod(n);
    LowByteMod(n / 0x100);
    WrapLowers(u0 + 0x100 * u1);
    hide LowByte, Wrap, ByteOf;
  }

  /** What a load returns of what a store of the same width has written: the word, the sign-extended low byte, or the
      low half without its sign. */
  lemma LoadOfStored(n: Word)
    ensures LoadedWord(FourBytes, StoredBytes(FourBytes, n)) == n
    ensures LoadedWord(OneByte, StoredBytes(OneByte, n)) == LowByte(n)
    ensures LoadedWord(TwoBytes, StoredBytes(TwoBytes, n)) == n % 0x1_0000
  {
    PackUnpack(n);
    HalfOf(n);
    BytesSplit(n);
    hide LowByte, WordOf, ByteOf;
  }
}
