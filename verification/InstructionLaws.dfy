/** What each instruction computes, said in terms of numbers and not of the functions that compute it
    (risc/opcodes.go). Every law is about a step of MVP-1 on a program that holds the instruction. */
module InstructionLaws {
  import opened Words
  import opened Isa
  import opened Sequential
  import Bits

  /** The instruction that comes next. */
  ghost predicate Next(app: App, s: Flat, i: Instr) { 0 <= Index(s.pc) < |app.code| && app.code[Index(s.pc)] == i }

  /** Register zero reads as 0 whatever is in it. */
  function Value(regs: Regs, r: Reg): Word { if r == ZERO then 0 else Read(regs, r) }

  /** The step puts v into rd, changes no other register and no memory, and goes on at pc. */
  ghost predicate Yields(app: App, s: Flat, rd: Reg, v: Word, pc: Word) {
    var t := Step(Plain, app, s);
    && t.FlatNext? && t.next.pc == pc && t.next.memory == s.memory
    && forall r: Reg :: Value(t.next.regs, r) == if r == rd && rd != ZERO then v else Value(s.regs, r)
  }

  predicate Congruent(a: int, b: int) { (a - b) % 0x1_0000_0000 == 0 }

  lemma WrapIsCongruent(x: int)
    ensures Congruent(Wrap(x), x)
  {
  }

  /** An arithmetic instruction and its operands: two registers, or a register and a number. */
  predicate Takes(i: Instr, op: AluOp, rd: Reg, regs: Regs, a: Word, b: Word) {
    match i
    case AluRR(o, d, r1, r2) => o == op && d == rd && a == Value(regs, r1) && b == Value(regs, r2)
    case AluRI(o, d, r, imm) => o == op && d == rd && a == Value(regs, r) && b == imm
    case _ => false
  }

  lemma NoForwardReads(regs: Regs, r: Reg)
    ensures RegisterRead(regs, NO_FORWARD, r) == Value(regs, r)
  {
  }

  /** A step that writes one register. */
  lemma Writing(app: App, s: Flat, i: Instr, rd: Reg, v: Word)
    requires Next(app, s, i) && !i.Load? && !i.Jal?
    requires Run(i, NO_FORWARD, s.regs, app.labels, s.pc, []) == Ok(RegisterWrite(rd, v))
    ensures Yields(app, s, rd, v, Wrap(s.pc + 4))
  {
    hide Run;
    assert BytesAt(s.memory, []) == [];
    var e := RegisterWrite(rd, v);
    assert Step(Plain, app, s) == FlatNext(Flat(s.regs[rd := e.registerValue], Wrap(s.pc + 4), s.memory));
  }

  lemma Computing(app: App, s: Flat, i: Instr, op: AluOp, rd: Reg, a: Word, b: Word)
    requires Next(app, s, i) && Takes(i, op, rd, s.regs, a, b)
    ensures match Alu(op, a, b)
            case Ok(v) => Yields(app, s, rd, v, Wrap(s.pc + 4))
            case Fail(f) => Step(Plain, app, s) == FlatStop(Error(f))
  {
    hide Alu;
    assert Run(i, NO_FORWARD, s.regs, app.labels, s.pc, []) == Write(rd, Alu(op, a, b));
    if Alu(op, a, b).Ok? {
      Writing(app, s, i, rd, Alu(op, a, b).value);
    } else {
      assert BytesAt(s.memory, []) == [];
    }
    hide Yields;
  }

  // ---------------------------------------------------------------- sums, products, comparisons

  /** add, sub and mul are exact modulo 2^32. */
  lemma SumsAndProducts(app: App, s: Flat, i: Instr, op: AluOp, rd: Reg, a: Word, b: Word) returns (v: Word)
    requires Next(app, s, i) && Takes(i, op, rd, s.regs, a, b) && op in {Add, Sub, Mul}
    ensures Yields(app, s, rd, v, Wrap(s.pc + 4))
    ensures op == Add ==> Congruent(v, a + b)
    ensures op == Sub ==> Congruent(v, a - b)
    ensures op == Mul ==> Congruent(v, a * b)
  {
    Computing(app, s, i, op, rd, a, b);
    ExactModulo(op, a, b);
    v := Alu(op, a, b).value;
    hide Yields, Alu, Congruent;
  }

  lemma ExactModulo(op: AluOp, a: Word, b: Word)
    requires op in {Add, Sub, Mul}
    ensures Alu(op, a, b).Ok?
    ensures Congruent(Alu(op, a, b).value, match op case Add => a + b case Sub => a - b case _ => a * b)
  {
    WrapIsCongruent(a + b);
    WrapIsCongruent(a - b);
    WrapIsCongruent(a * b);
    hide Wrap, Congruent;
  }

  /** A sub takes back the add before it. */
  lemma SubUndoesAdd(app: App, s: Flat, rd: Reg, r1: Reg, r2: Reg)
    requires Next(app, s, AluRR(Add, rd, r1, r2)) && rd != ZERO && rd != r2
    requires Step(Plain, app, s).FlatNext? ==> Next(app, Step(Plain, app, s).next, AluRR(Sub, rd, rd, r2))
    ensures Step(Plain, app, s).FlatNext?
    ensures Yields(app, Step(Plain, app, s).next, rd, Value(s.regs, r1),
                   Wrap(Step(Plain, app, s).next.pc + 4))
  {
    hide Step, Next, Congruent, Wrap;
    var a, b := Value(s.regs, r1), Value(s.regs, r2);
    var v := SumsAndProducts(app, s, AluRR(Add, rd, r1, r2), Add, rd, a, b);
    var t := Step(Plain, app, s).next;
    assert Value(t.regs, rd) == v && Value(t.regs, r2) == b;
    var w := SumsAndProducts(app, t, AluRR(Sub, rd, rd, r2), Sub, rd, v, b);
    TakenBack(a, b, v, w);
  }

  lemma TakenBack(a: Word, b: Word, v: Word, w: Word)
    requires Congruent(v, a + b) && Congruent(w, v - b)
    ensures w == a
  {
  }

  /** slt and slti compare as signed numbers, and so does sltu. */
  lemma Comparisons(app: App, s: Flat, i: Instr, op: AluOp, rd: Reg, a: Word, b: Word) returns (v: Word)
    requires Next(app, s, i) && Takes(i, op, rd, s.regs, a, b) && op in {Slt, Sltu}
    ensures Yields(app, s, rd, v, Wrap(s.pc + 4))
    ensures v in {0, 1} && (v == 1 <==> a < b)
  {
    Computing(app, s, i, op, rd, a, b);
    v := Alu(op, a, b).value;
    hide Yields;
  }

  // ---------------------------------------------------------------- division

  /** Division towards zero, and its remainder, which has the sign of the dividend. */
  ghost predicate Divides(a: int, b: int, q: int, r: int) {
    && a == b * q + r
    && (if b < 0 then b < r < -b else -b < r < b)
    && (r > 0 ==> a > 0) && (r < 0 ==> a < 0)
  }

  lemma {:induction false} ProductGrows(n: nat, k: nat, d: nat)
    requires n >= k
    ensures n * d >= k * d
  {
    if n > k {
      ProductGrows(n - 1, k, d);
      assert n * d == (n - 1) * d + d;
    }
  }

  lemma NaturalDivision(m: nat, n: nat)
    requires n > 0
    ensures m == n * (m / n) + m % n && 0 <= m % n < n && 0 <= m / n <= m
    ensures n > 1 && m > 0 ==> m / n < m
  {
    var d: nat := m / n;
    ProductGrows(n, 1, d);
    if n > 1 { ProductGrows(n, 2, d); }
  }

  lemma QuotientDivides(a: Word, b: Word)
    requires b != 0
    ensures var q := TruncatedQuotient(a, b);
            Divides(a, b, q, a - b * q) && -0x8000_0000 <= q <= 0x8000_0000
            && (q == 0x8000_0000 <==> a == -0x8000_0000 && b == -1)
  {
    var m, n := if a < 0 then 0 - a else a, if b < 0 then 0 - b else b;
    NaturalDivision(m, n);
    var d, r := m / n, m % n;
    var q := TruncatedQuotient(a, b);
    assert q == if (a < 0) == (b < 0) then d else 0 - d;
    hide TruncatedQuotient, Divides;
    SignedProduct(b, n, d, q);
    SignedDivision(a, b, q, r);
  }

  lemma SignedProduct(b: int, n: nat, d: nat, q: int)
    requires n == (if b < 0 then 0 - b else b) && (q == d || q == 0 - d)
    ensures b * q == if (b < 0) == (q == d) then 0 - n * d else n * d
  {
  }

  lemma SignedDivision(a: int, b: int, q: int, r: nat)
    requires b != 0 && r < (if b < 0 then -b else b) && (a == 0 ==> r == 0)
    requires a == b * q + (if a < 0 then 0 - r else r)
    ensures Divides(a, b, q, a - b * q)
  {
  }

  /** div and rem give the quotient and the remainder, but for -2^31 / -1, whose quotient does not fit and comes out as
      -2^31; without a divisor div fails and rem panics. */
  lemma Division(app: App, s: Flat, i: Instr, op: AluOp, rd: Reg, a: Word, b: Word) returns (q: int, r: int)
    requires Next(app, s, i) && Takes(i, op, rd, s.regs, a, b) && op in {Div, Rem}
    ensures b == 0 ==> Step(Plain, app, s) == FlatStop(Error(if op == Div then DivisionByZero else GoPanic))
    ensures b != 0 ==> Divides(a, b, q, r)
    ensures b != 0 && op == Rem ==> -0x8000_0000 <= r < 0x8000_0000 && Yields(app, s, rd, r, Wrap(s.pc + 4))
    ensures b != 0 && op == Div ==>
      if a == -0x8000_0000 && b == -1 then Yields(app, s, rd, -0x8000_0000, Wrap(s.pc + 4))
      else -0x8000_0000 <= q < 0x8000_0000 && Yields(app, s, rd, q, Wrap(s.pc + 4))
  {
    hide Yields, Alu, Divides, TruncatedQuotient, Next, Step, Wrap;
    Computing(app, s, i, op, rd, a, b);
    q, r := 0, 0;
    DividedValue(op, a, b);
    if b != 0 {
      q := TruncatedQuotient(a, b);
      r := a - b * q;
    }
  }

  lemma DividedValue(op: AluOp, a: Word, b: Word)
    requires op in {Div, Rem}
    ensures b == 0 ==> Alu(op, a, b) == Fail(if op == Div then DivisionByZero else GoPanic)
    ensures b != 0 ==>
      var q := TruncatedQuotient(a, b);
      && Divides(a, b, q, a - b * q)
      && if op == Rem then Alu(op, a, b) == Ok(a - b * q)
         else if a == -0x8000_0000 && b == -1 then Alu(op, a, b) == Ok(-0x8000_0000) else Alu(op, a, b) == Ok(q)
  {
    hide TruncatedQuotient;
    if b != 0 { QuotientDivides(a, b); }
  }

  // ---------------------------------------------------------------- bits

  lemma HalfFirst(x: int, p: nat)
    requires p > 0
    ensures x / (2 * p) == (x / 2) / p
  {
    var q, r := (x / 2) / p, (x / 2) % p;
    assert x / 2 == p * q + r;
    assert x == 2 * (x / 2) + x % 2;
    assert x == (2 * p) * q + (2 * r + x % 2) by { assert 2 * (p * q) == (2 * p) * q; }
    Bits.DivisionIsUnique(x, 2 * p, q, 2 * r + x % 2);
  }

  lemma BitOfHalf(x: int, k: nat)
    requires k > 0
    ensures Bits.Bit(x, k) == Bits.Bit(x / 2, k - 1)
  {
    HalfFirst(x, Pow2(k - 1));
  }

  predicate Combines(op: AluOp, x: bool, y: bool, z: bool) {
    match op
    case And => z <==> x && y
    case Or => z <==> x || y
    case _ => z <==> x != y
  }

  lemma BitAndHalf(bit: int, half: int)
    requires bit in {0, 1}
    ensures (bit + 2 * half) % 2 == bit && (bit + 2 * half) / 2 == half
  {
  }

  lemma BitwiseSplits(op: AluOp, a: int, b: int, n: nat)
    requires n > 0 && op in {And, Or, Xor}
    ensures var x := Bitwise(op, a, b, n);
            Combines(op, a % 2 == 1, b % 2 == 1, x % 2 == 1) && x / 2 == Bitwise(op, a / 2, b / 2, n - 1)
  {
    var x, h := Bitwise(op, a, b, n), Bitwise(op, a / 2, b / 2, n - 1);
    var p, q := a % 2, b % 2;
    assert p in {0, 1} && q in {0, 1};
    var bit := if op == And then p * q else if op == Or then (if p + q == 0 then 0 else 1) else (p + q) % 2;
    assert x == bit + 2 * h;
    hide Bitwise;
    BitOfOperands(op, p, q, bit);
    BitAndHalf(bit, h);
  }

  lemma BitOfOperands(op: AluOp, p: int, q: int, bit: int)
    requires p in {0, 1} && q in {0, 1}
    requires bit == if op == And then p * q else if op == Or then (if p + q == 0 then 0 else 1) else (p + q) % 2
    ensures bit in {0, 1} && Combines(op, p == 1, q == 1, bit == 1)
  {
    if p == 0 { assert p * q == 0; }
  }

  lemma {:induction false} BitsOfBitwise(op: AluOp, a: int, b: int, n: nat, k: nat)
    requires k < n && op in {And, Or, Xor}
    ensures Combines(op, Bits.Bit(a, k), Bits.Bit(b, k), Bits.Bit(Bitwise(op, a, b, n), k))
    decreases n
  {
    BitwiseSplits(op, a, b, n);
    hide Bitwise;
    if k == 0 {
      assert Pow2(0) == 1;
    } else {
      BitsOfBitwise(op, a / 2, b / 2, n - 1, k - 1);
      BitOfHalf(a, k);
      BitOfHalf(b, k);
      BitOfHalf(Bitwise(op, a, b, n), k);
      hide Bits.Bit, Combines;
    }
  }

  lemma {:induction false} BitwiseIsSmall(op: AluOp, a: int, b: int, n: nat)
    requires op in {And, Or, Xor}
    ensures Bitwise(op, a, b, n) < Pow2(n)
    decreases n
  {
    if n > 0 { BitwiseIsSmall(op, a / 2, b / 2, n - 1); }
  }

  lemma MultipleKeepsBit(u: int, p: nat, q: int)
    requires p > 0
    ensures ((u - p * (2 * q)) / p) % 2 == (u / p) % 2
  {
    var d, r := u / p, u % p;
    assert u - p * (2 * q) == p * (d - 2 * q) + r by { assert p * (d - 2 * q) == p * d - p * (2 * q); }
    Bits.DivisionIsUnique(u - p * (2 * q), p, d - 2 * q, r);
  }

  lemma WrapKeepsBits(u: nat, k: nat)
    requires u < 0x1_0000_0000 && k < 32
    ensures Bits.Bit(Wrap(u), k) == Bits.Bit(u, k)
  {
    if u >= 0x8000_0000 {
      Bits.Powers();
      Bits.PowersMultiply(k, 32 - k);
      MultipleKeepsBit(u, Pow2(k), Pow2(31 - k));
      assert Wrap(u) == u - Pow2(32);
    }
  }

  /** Every bit of and, or and xor comes from the two bits in its place. */
  lemma BitsOfLogic(app: App, s: Flat, i: Instr, op: AluOp, rd: Reg, a: Word, b: Word) returns (v: Word)
    requires Next(app, s, i) && Takes(i, op, rd, s.regs, a, b) && op in {And, Or, Xor}
    ensures Yields(app, s, rd, v, Wrap(s.pc + 4))
    ensures forall k: nat :: k < 32 ==> Combines(op, Bits.Bit(a, k), Bits.Bit(b, k), Bits.Bit(v, k))
  {
    hide Yields, Alu, Combines, Bits.Bit, Next, Step, Wrap;
    Computing(app, s, i, op, rd, a, b);
    LogicBits(op, a, b);
    v := Alu(op, a, b).value;
  }

  lemma LogicBits(op: AluOp, a: Word, b: Word)
    requires op in {And, Or, Xor}
    ensures Alu(op, a, b).Ok?
    ensures forall k: nat :: k < 32 ==> Combines(op, Bits.Bit(a, k), Bits.Bit(b, k), Bits.Bit(Alu(op, a, b).value, k))
  {
    hide Bits.Bit, Combines, Bitwise, Wrap, Pow2;
    var u := Bitwise(op, a, b, 32);
    BitwiseIsSmall(op, a, b, 32);
    Bits.Powers();
    forall k: nat | k < 32 ensures Combines(op, Bits.Bit(a, k), Bits.Bit(b, k), Bits.Bit(Alu(op, a, b).value, k)) {
      BitsOfBitwise(op, a, b, 32, k);
      WrapKeepsBits(u, k);
    }
  }

  // ---------------------------------------------------------------- shifts

  lemma LongShift(b: nat)
    requires b >= 32
    ensures Pow2(b) == 0x1_0000_0000 * Pow2(b - 32)
  {
    Bits.Powers();
    Bits.PowersMultiply(32, b - 32);
  }

  lemma MultipleIsZero(x: int, y: int)
    ensures Congruent(0, x * (0x1_0000_0000 * y))
  {
    assert 0 - x * (0x1_0000_0000 * y) == 0x1_0000_0000 * -(x * y);
    Bits.DivisionIsUnique(0 - x * (0x1_0000_0000 * y), 0x1_0000_0000, -(x * y), 0);
  }

  /** sll multiplies by a power of two modulo 2^32; a negative count is a huge one. sra and srl both divide by it,
      rounding down, and panic on a negative count. */
  lemma Shifts(app: App, s: Flat, i: Instr, op: AluOp, rd: Reg, a: Word, b: Word) returns (v: Word)
    requires Next(app, s, i) && Takes(i, op, rd, s.regs, a, b) && op in {Sll, Sra, Srl}
    ensures b < 0 && op != Sll ==> Step(Plain, app, s) == FlatStop(Error(GoPanic))
    ensures b >= 0 || op == Sll ==> Yields(app, s, rd, v, Wrap(s.pc + 4))
    ensures op == Sll ==> if b < 0 then v == 0 else Congruent(v, a * Pow2(b))
    ensures op != Sll && b >= 0 ==> v * Pow2(b) <= a < (v + 1) * Pow2(b)
  {
    hide Yields, Alu, Congruent, Pow2, Next, Step, Wrap;
    Computing(app, s, i, op, rd, a, b);
    ShiftedValue(op, a, b);
    v := if Alu(op, a, b).Ok? then Alu(op, a, b).value else 0;
  }

  lemma ShiftedValue(op: AluOp, a: Word, b: Word)
    requires op in {Sll, Sra, Srl}
    ensures match Alu(op, a, b)
            case Fail(f) => b < 0 && op != Sll && f == GoPanic
            case Ok(v) =>
              && (b >= 0 || op == Sll)
              && (op == Sll ==> if b < 0 then v == 0 else Congruent(v, a * Pow2(b)))
              && (op != Sll && b >= 0 ==> v * Pow2(b) <= a < (v + 1) * Pow2(b))
  {
    hide Congruent, Pow2, Wrap;
    if b >= 0 {
      if op == Sll {
        if b < 32 {
          WrapIsCongruent(a * Pow2(b));
        } else {
          LongShift(b);
          MultipleIsZero(a, Pow2(b - 32));
        }
      } else {
        RightShift(a, b);
      }
    }
  }

  lemma FloorBounds(a: Word, p: nat)
    requires p > 0
    ensures (a / p) * p <= a < (a / p + 1) * p
    ensures if a >= 0 then 0 <= a / p <= a else a <= a / p < 0
    ensures p >= 0x1_0000_0000 ==> a / p == if a < 0 then -1 else 0
  {
    var v, r := a / p, a % p;
    assert a == p * v + r;
    assert (v + 1) * p == p * v + p;
    if v >= 0 { ProductGrows(p, 1, v); } else { ProductGrows(p, 1, -1 - v); assert p * (-1 - v) == 0 - p - p * v; }
  }

  lemma RightShift(a: Word, b: nat)
    ensures var v := a / Pow2(if b < 32 then b else 32);
            Wrap(v) == v && v * Pow2(b) <= a < (v + 1) * Pow2(b)
  {
    FloorBounds(a, Pow2(b));
    if b >= 32 {
      Bits.Powers();
      LongShift(b);
      FloorBounds(a, Pow2(32));
      ProductGrows(Pow2(b - 32), 1, 0x1_0000_0000);
    }
    hide Pow2;
  }

  // ---------------------------------------------------------------- constants and moves

  /** li, lui, auipc and mv: a number, its upper twenty bits, those from here, and another register. */
  lemma Constants(app: App, s: Flat, i: Instr) returns (v: Word)
    requires Next(app, s, i) && (i.Li? || i.Lui? || i.Auipc? || i.Mv?)
    ensures Yields(app, s, i.rd, v, Wrap(s.pc + 4))
    ensures i.Li? ==> v == i.imm
    ensures i.Lui? ==> Congruent(v, i.imm * 4096)
    ensures i.Auipc? ==> Congruent(v, s.pc + i.imm * 4096)
    ensures i.Mv? ==> v == Value(s.regs, i.rs)
  {
    match i
    case Li(rd, imm) => v := imm;
    case Lui(rd, imm) => v := Wrap(imm * 0x1000); WrapIsCongruent(imm * 0x1000);
    case Auipc(rd, imm) =>
      v := Wrap(s.pc + Wrap(imm * 0x1000));
      WrapIsCongruent(imm * 0x1000);
      WrapIsCongruent(s.pc + Wrap(imm * 0x1000));
      CongruentSum(v, s.pc, Wrap(imm * 0x1000), imm * 0x1000);
    case Mv(rd, rs) => v := RegisterRead(s.regs, NO_FORWARD, rs);
    hide Wrap, Congruent;
    Writing(app, s, i, i.rd, v);
    hide Yields;
  }

  lemma CongruentSum(v: int, a: int, b: int, c: int)
    requires Congruent(v, a + b) && Congruent(b, c)
    ensures Congruent(v, a + c)
  {
  }

  // ---------------------------------------------------------------- branches and jumps

  /** The step changes the program counter only, to that of the label, or fails without one. */
  ghost predicate GoesTo(app: App, s: Flat, target: string) {
    Step(Plain, app, s)
    == if target in app.labels then FlatNext(s.(pc := app.labels[target])) else FlatStop(Error(UnknownLabel))
  }

  ghost predicate FallsThrough(app: App, s: Flat) { Step(Plain, app, s) == FlatNext(s.(pc := Wrap(s.pc + 4))) }

  /** A branch goes to its label exactly when the registers compare as its name says, and else to the next instruction.
      bltu and bgeu compare as signed numbers. */
  lemma Branches(app: App, s: Flat, c: Cond, r1: Reg, r2: Reg, target: string)
    requires Next(app, s, Branch(c, r1, r2, target))
    ensures var a, b := Value(s.regs, r1), Value(s.regs, r2);
            && (c == Beq ==> if a == b then GoesTo(app, s, target) else FallsThrough(app, s))
            && (c == Bne ==> if a == b then FallsThrough(app, s) else GoesTo(app, s, target))
            && (c in {Blt, Bltu} ==> if a < b then GoesTo(app, s, target) else FallsThrough(app, s))
            && (c in {Bge, Bgeu} ==> if a < b then FallsThrough(app, s) else GoesTo(app, s, target))
  {
    assert BytesAt(s.memory, []) == [];
  }

  lemma ZeroBranches(app: App, s: Flat, r: Reg, target: string)
    requires Next(app, s, Beqz(r, target))
    ensures if Value(s.regs, r) == 0 then GoesTo(app, s, target) else FallsThrough(app, s)
  {
    assert BytesAt(s.memory, []) == [];
  }

  /** j, jal and jalr: where they go, and what they leave in their register. jal also leaves its own address in ra, if
      it names another register. */
  lemma Jumps(app: App, s: Flat, i: Instr) returns (target: Word)
    requires Next(app, s, i) && IsUnconditionalBranch(i)
    ensures i.J? ==> GoesTo(app, s, i.target)
    ensures i.Jal? && i.target !in app.labels ==> Step(Plain, app, s) == FlatStop(Error(UnknownLabel))
    ensures i.Jal? && i.target in app.labels ==>
      var t := Step(Plain, app, s);
      && t.FlatNext? && t.next.pc == app.labels[i.target] && t.next.memory == s.memory
      && forall r: Reg :: Value(t.next.regs, r)
           == if r == i.rd && r != ZERO then Wrap(s.pc + 4) else if r == RA then s.pc else Value(s.regs, r)
    ensures i.Jalr? ==>
      Congruent(target, Value(s.regs, i.rs) + i.imm) && Yields(app, s, i.rd, Wrap(s.pc + 4), target)
  {
    assert BytesAt(s.memory, []) == [];
    target := 0;
    if i.Jalr? {
      target := Wrap(Value(s.regs, i.rs) + i.imm);
      WrapIsCongruent(Value(s.regs, i.rs) + i.imm);
      NoForwardReads(s.regs, i.rs);
      var v := if i.rd == ZERO then 0 else Wrap(s.pc + 4);
      assert Step(Plain, app, s) == FlatNext(Flat(s.regs[i.rd := v], target, s.memory));
      assert Yields(app, s, i.rd, Wrap(s.pc + 4), target);
    }
  }

  lemma NopAndRet(app: App, s: Flat, i: Instr)
    requires Next(app, s, i)
    ensures i.Nop? ==> FallsThrough(app, s)
    ensures i.Ret? ==> Step(Plain, app, s) == FlatStop(Return)
  {
    assert BytesAt(s.memory, []) == [];
  }
}
