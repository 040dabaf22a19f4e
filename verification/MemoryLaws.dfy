/** Where loads and stores go and what they move, said of a program, its registers and its memory
    (risc/opcodes.go). */
module MemoryLaws {
  import opened Words
  import opened Isa
  import opened Mmu
  import opened Sequential
  import opened InstructionLaws
  import Bits

  /** lb, lh and lw take one, two and four bytes. */
  predicate Takes(w: Width, n: nat) { match w case OneByte => n == 1 case TwoBytes => n == 2 case FourBytes => n == 4 }

  /** Byte k of the addresses is at base + offset + k, modulo 2^32. */
  ghost predicate Located(addrs: seq<Word>, base: Word, offset: Word) {
    forall k :: 0 <= k < |addrs| ==> Congruent(addrs[k], base + offset + k)
  }

  lemma AddressesAreLocated(base: Word, offset: Word, n: nat)
    ensures Located(Addresses(Wrap(base + offset), n), base, offset)
  {
    var addrs := Addresses(Wrap(base + offset), n);
    forall k | 0 <= k < |addrs| ensures Congruent(addrs[k], base + offset + k) {
      WrapIsCongruent(base + offset);
      WrapIsCongruent(Wrap(base + offset) + k);
      CongruentSum(addrs[k], k, Wrap(base + offset), base + offset);
    }
  }

  /** The unsigned form of a byte. */
  function Unsigned(b: Byte): (u: int)
    ensures 0 <= u < 0x100
  {
    if b < 0 then b + 0x100 else b
  }

  /** What a load makes of its bytes: lb keeps the sign, lh has none, and lw is the word modulo 2^32. */
  predicate Holds(w: Width, v: Word, bytes: seq<Byte>)
    requires Takes(w, |bytes|)
  {
    match w
    case OneByte => v == bytes[0]
    case TwoBytes => v == Unsigned(bytes[0]) + 0x100 * Unsigned(bytes[1])
    case FourBytes => Congruent(v, Unsigned(bytes[0]) + 0x100 * Unsigned(bytes[1]) + 0x1_0000 * Unsigned(bytes[2])
                                   + 0x100_0000 * Unsigned(bytes[3]))
  }

  lemma WordIsCongruent(b0: Byte, b1: Byte, b2: Byte, b3: Byte)
    ensures var x := Unsigned(b0) + 0x100 * Unsigned(b1) + 0x1_0000 * Unsigned(b2) + 0x100_0000 * Unsigned(b3);
            Congruent(WordOf(b0, b1, b2, b3), x) && (0 <= x < 0x8000_0000 ==> WordOf(b0, b1, b2, b3) == x)
  {
    UnsignedIsRest(b0);
    UnsignedIsRest(b1);
    UnsignedIsRest(b2);
    UnsignedIsRest(b3);
    var x := Unsigned(b0) + 0x100 * Unsigned(b1) + 0x1_0000 * Unsigned(b2) + 0x100_0000 * Unsigned(b3);
    WrapIsCongruent(x);
    hide Wrap, Congruent, Unsigned;
  }

  lemma LoadedHolds(w: Width, bytes: seq<Byte>)
    requires Takes(w, |bytes|)
    ensures Holds(w, LoadedWord(w, bytes), bytes)
  {
    match w
    case OneByte =>
    case TwoBytes => WordIsCongruent(bytes[0], bytes[1], 0, 0);
    case FourBytes => WordIsCongruent(bytes[0], bytes[1], bytes[2], bytes[3]);
    hide WordOf, Congruent;
  }

  lemma UnsignedIsRest(b: Byte)
    ensures Unsigned(b) == b % 0x100
  {
  }

  /** A load reads the bytes at base + offset and on, and puts what they hold into its register; outside memory it
      stops. */
  lemma Loads(app: App, s: Flat, i: Instr) returns (addrs: seq<Word>, v: Word)
    requires Next(app, s, i) && i.Load?
    ensures Takes(i.width, |addrs|) && Located(addrs, Value(s.regs, i.rs), i.offset)
    ensures !InRange(s.memory, addrs) ==> Step(Plain, app, s) == FlatStop(Error(BadAddress))
    ensures InRange(s.memory, addrs) ==>
      Yields(app, s, i.rd, v, Wrap(s.pc + 4)) && Holds(i.width, v, BytesAt(s.memory, addrs))
  {
    addrs := MemoryRead(i, NO_FORWARD, s.regs);
    v := 0;
    NoForwardReads(s.regs, i.rs);
    AddressesAreLocated(Value(s.regs, i.rs), i.offset, Bytes(i.width));
    if InRange(s.memory, addrs) {
      var bytes := BytesAt(s.memory, addrs);
      v := LoadedWord(i.width, bytes);
      LoadedHolds(i.width, bytes);
      hide LoadedWord, MemoryRead, Holds, Located;
      var e := RegisterWrite(i.rd, v);
      assert Run(i, NO_FORWARD, s.regs, app.labels, s.pc, bytes) == Ok(e);
      assert Step(Plain, app, s) == FlatNext(Flat(s.regs[i.rd := e.registerValue], Wrap(s.pc + 4), s.memory));
    }
  }

  /** Byte k of a word, counted from the lowest. */
  predicate IsByte(b: Byte, n: Word, k: nat) {
    match k
    case 0 => Unsigned(b) == n % 0x100
    case 1 => Unsigned(b) == (n / 0x100) % 0x100
    case 2 => Unsigned(b) == (n / 0x1_0000) % 0x100
    case _ => Unsigned(b) == (n / 0x100_0000) % 0x100
  }

  lemma LowByteIsUnsigned(x: int)
    ensures Unsigned(LowByte(x)) == x % 0x100
  {
  }

  lemma StoredAreBytes(w: Width, n: Word)
    ensures Takes(w, |StoredBytes(w, n)|)
    ensures forall k :: 0 <= k < |StoredBytes(w, n)| ==> IsByte(StoredBytes(w, n)[k], n, k)
  {
    Bits.BytesSplit(n);
    LowByteIsUnsigned(n);
    LowByteIsUnsigned(n / 0x100);
    LowByteIsUnsigned(n / 0x1_0000);
    LowByteIsUnsigned(n / 0x100_0000);
    hide LowByte, ByteOf, Unsigned;
  }

  lemma StoreSteps(app: App, s: Flat, i: Instr, a: Word, data: seq<Byte>)
    requires Next(app, s, i) && i.Store?
    requires a == Wrap(Value(s.regs, i.rs1) + i.offset) && data == StoredBytes(i.width, Value(s.regs, i.rs2))
    ensures Step(Plain, app, s)
         == if 0 <= a && a + |data| <= |s.memory|
            then FlatNext(Flat(s.regs, Wrap(s.pc + 4), WriteTruncated(s.memory, a, data)))
            else FlatStop(Error(BadAddress))
  {
    NoForwardReads(s.regs, i.rs1);
    NoForwardReads(s.regs, i.rs2);
    StoreOnFlat(Plain, app, s, i);
    assert StoreExecution(app, s.pc, s.regs, i).address == a && StoreExecution(app, s.pc, s.regs, i).data == data;
    hide Step, StoredBytes, Wrap, StoreExecution;
  }

  /** Memory in which the bytes of n stand at a and on, and nothing else has changed. */
  ghost predicate Holding(memory: Memory, memory1: Memory, a: int, size: nat, n: Word) {
    && |memory1| == |memory|
    && forall k :: 0 <= k < |memory| ==>
         if a <= k < a + size then IsByte(memory1[k], n, k - a) else memory1[k] == memory[k]
  }

  lemma WrittenIsHolding(memory: Memory, a: int, w: Width, n: Word)
    ensures var data := StoredBytes(w, n);
            Takes(w, |data|) && Holding(memory, WriteTruncated(memory, a, data), a, |data|, n)
  {
    StoredAreBytes(w, n);
    hide StoredBytes, IsByte;
  }

  /** A store writes the low bytes of its register at base + offset and on, and nothing else; outside memory it
      stops. */
  lemma Stores(app: App, s: Flat, i: Instr) returns (a: Word, n: nat)
    requires Next(app, s, i) && i.Store?
    ensures Takes(i.width, n) && Congruent(a, Value(s.regs, i.rs1) + i.offset)
    ensures !(0 <= a && a + n <= |s.memory|) ==> Step(Plain, app, s) == FlatStop(Error(BadAddress))
    ensures 0 <= a && a + n <= |s.memory| ==>
      var t := Step(Plain, app, s);
      && t.FlatNext? && t.next.regs == s.regs && t.next.pc == Wrap(s.pc + 4)
      && Holding(s.memory, t.next.memory, a, n, Value(s.regs, i.rs2))
  {
    hide Step, StoredBytes, Wrap, Congruent, Holding, Next, Value, WriteTruncated;
    a := Wrap(Value(s.regs, i.rs1) + i.offset);
    WrapIsCongruent(Value(s.regs, i.rs1) + i.offset);
    var data := StoredBytes(i.width, Value(s.regs, i.rs2));
    n := |data|;
    StoreSteps(app, s, i, a, data);
    WrittenIsHolding(s.memory, a, i.width, Value(s.regs, i.rs2));
  }

  /** Two steps: what a store has put down a load with the same base, offset and width picks up, cut to the width. */
  lemma StoreThenLoad(app: App, s: Flat, w: Width, rs2: Reg, rd: Reg, base: Reg, offset: Word)
    requires Next(app, s, Store(w, rs2, offset, base)) && |s.memory| <= 0x8000_0000
    requires Step(Plain, app, s).FlatNext?
             && Next(app, Step(Plain, app, s).next, Load(w, rd, offset, base))
    ensures var t := Step(Plain, app, s).next;
            var n := Value(s.regs, rs2);
            Yields(app, t, rd, match w case OneByte => LowByte(n) case TwoBytes => n % 0x1_0000 case FourBytes => n,
                   Wrap(t.pc + 4))
  {
    hide Step, Wrap, LowByte, Yields, Next, Holds, Value, Congruent, Located, Holding, InRange;
    var t := Step(Plain, app, s).next;
    var a, n := Stores(app, s, Store(w, rs2, offset, base));
    var addrs, v := Loads(app, t, Load(w, rd, offset, base));
    ReadBack(w, s.memory, t.memory, a, Value(s.regs, base), offset, addrs, Value(s.regs, rs2), v);
  }

  lemma ReadBack(w: Width, memory: Memory, memory1: Memory, a: Word, base: Word, offset: Word, addrs: seq<Word>,
                 n: Word, v: Word)
    requires Takes(w, |addrs|) && 0 <= a && a + |addrs| <= |memory| <= 0x8000_0000
    requires Congruent(a, base + offset) && Located(addrs, base, offset) && Holding(memory, memory1, a, |addrs|, n)
    requires InRange(memory1, addrs) ==> Holds(w, v, BytesAt(memory1, addrs))
    ensures InRange(memory1, addrs)
    ensures v == match w case OneByte => LowByte(n) case TwoBytes => n % 0x1_0000 case FourBytes => n
  {
    hide LowByte, IsByte, Holds, Congruent;
    forall k | 0 <= k < |addrs| ensures addrs[k] == a + k {
      SameAddress(a, addrs[k], base + offset, k, |memory|);
    }
    BytesOfWord(w, v, BytesAt(memory1, addrs), n);
  }

  lemma SameAddress(a: Word, b: Word, x: int, k: nat, size: nat)
    requires Congruent(a, x) && Congruent(b, x + k) && 0 <= a && a + k < size <= 0x8000_0000
    ensures b == a + k
  {
  }

  /** The bytes of a word hold the word. */
  lemma BytesOfWord(w: Width, v: Word, bytes: seq<Byte>, n: Word)
    requires Takes(w, |bytes|) && Holds(w, v, bytes) && forall k :: 0 <= k < |bytes| ==> IsByte(bytes[k], n, k)
    ensures v == match w case OneByte => LowByte(n) case TwoBytes => n % 0x1_0000 case FourBytes => n
  {
    var u0, u1, u2, h := Bits.DigitsExist(n);
    Bits.Digits(u0, u1, u2, h, n);
    assert IsByte(bytes[0], n, 0);
    match w
    case OneByte =>
      LowByteIsUnsigned(n);
      SameUnsigned(bytes[0], LowByte(n));
    case TwoBytes =>
      assert IsByte(bytes[1], n, 1);
      Bits.DivisionIsUnique(n, 0x1_0000, u2 + 0x100 * h, u0 + 0x100 * u1);
    case FourBytes =>
      assert IsByte(bytes[1], n, 1) && IsByte(bytes[2], n, 2) && IsByte(bytes[3], n, 3);
      WordOfDigits(v, n, u0, u1, u2, h);
  }

  lemma SameUnsigned(a: Byte, b: Byte)
    requires Unsigned(a) == Unsigned(b)
    ensures a == b
  {
  }

  lemma WordOfDigits(v: Word, n: Word, u0: int, u1: int, u2: int, h: int)
    requires n == u0 + 0x100 * u1 + 0x1_0000 * u2 + 0x100_0000 * h
    requires Congruent(v, u0 + 0x100 * u1 + 0x1_0000 * u2 + 0x100_0000 * (h % 0x100))
    ensures v == n
  {
    assert (n - (u0 + 0x100 * u1 + 0x1_0000 * u2 + 0x100_0000 * (h % 0x100))) == 0x1_0000_0000 * (h / 0x100);
  }
}
