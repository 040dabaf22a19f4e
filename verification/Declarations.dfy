/** The lists that the scoreboards and the branch units go by are no longer than they need to be (risc/opcodes.go,
    risc/risc.go). */
module Declarations {
  import opened Words
  import opened Isa
  import opened InstructionLaws
  import Bits
  import MemoryLaws

  // ---------------------------------------------------------------- registers read

  /** Registers that differ in r alone, and on which the instruction does something else. */
  ghost predicate Tells(i: Instr, r: Reg, a: Regs, b: Regs) {
    && (forall q: Reg :: q != r ==> Read(a, q) == Read(b, q))
    && (|| MemoryRead(i, NO_FORWARD, a) != MemoryRead(i, NO_FORWARD, b)
        || Run(i, NO_FORWARD, a, map[], 0, []) != Run(i, NO_FORWARD, b, map[], 0, []))
  }

  ghost predicate Matters(i: Instr, r: Reg) { exists a: Regs, b: Regs :: Tells(i, r, a, b) }

  /** It has a register to write, two different ones to read, or a 1 in place of the second, and is neither a remainder
      by that 1, nor an lh, which lists its destination among what it reads. */
  predicate Regular(i: Instr) {
    match i
    case AluRR(_, rd, rs1, rs2) => rd != ZERO && rs1 != rs2 && rs1 != ZERO && rs2 != ZERO
    case AluRI(op, rd, _, imm) => rd != ZERO && imm == 1 && op != Rem
    case Mv(rd, _) => rd != ZERO
    case Branch(_, rs1, rs2, _) => rs1 != rs2 && rs1 != ZERO && rs2 != ZERO
    case Load(w, rd, _, rs) => w != TwoBytes || rd == rs
    case Store(_, rs2, _, rs1) => rs1 != rs2 && rs1 != ZERO && rs2 != ZERO
    case _ => true
  }

  lemma SmallPowers()
    ensures Pow2(0) == 1 && Pow2(1) == 2
  {
  }

  /** The lowest bit of and, or and xor. */
  lemma LowBit(op: AluOp, x: Word, y: Word)
    requires op in {And, Or, Xor}
    ensures Alu(op, x, y).Ok? && Combines(op, x % 2 == 1, y % 2 == 1, Alu(op, x, y).value % 2 == 1)
  {
    BitwiseSplits(op, x, y, 32);
    WrapKeepsParity(Bitwise(op, x, y, 32));
    hide Bitwise, Wrap, Combines;
  }

  lemma WrapKeepsParity(u: int)
    ensures Wrap(u) % 2 == u % 2
  {
  }

  /** An operand that stays, and two values of the other one with which the operation gives different results. */
  lemma FirstDecides(op: AluOp) returns (y: Word, x: Word)
    ensures Alu(op, 0, y) != Alu(op, x, y)
  {
    SmallPowers();
    y, x := match op case Rem => 2 case Add => 0 case Or => 0 case Xor => 0 case Sll => 0 case Sra => 0 case Srl => 0
                     case Sub => 0 case _ => 1, 1;
    if op in {And, Or, Xor} {
      LowBit(op, 0, y);
      LowBit(op, 1, y);
    }
    hide Bitwise;
  }

  lemma SecondDecides(op: AluOp) returns (x: Word, y: Word)
    ensures Alu(op, x, 1) != Alu(op, x, y)
  {
    SmallPowers();
    x, y := match op case Rem => 1 case Div => 2 case Sll => 1 case Sra => 1 case Srl => 1 case Mul => 1 case And => 1
                     case _ => 0, match op case Rem => 2 case Div => 2 case _ => 0;
    if op in {And, Or, Xor} {
      LowBit(op, x, 0);
      LowBit(op, x, 1);
    }
    hide Bitwise;
  }

  lemma OneDecides(op: AluOp) returns (x: Word)
    requires op != Rem
    ensures Alu(op, 0, 1) != Alu(op, x, 1)
  {
    SmallPowers();
    x := if op in {Sra, Srl, Or} then 2 else 1;
    if op == Or {
      OrDecides();
    } else if op in {And, Xor} {
      LowBit(op, 0, 1);
      LowBit(op, 1, 1);
    }
    hide Bitwise;
  }

  lemma OrDecides()
    ensures Alu(Or, 0, 1) != Alu(Or, 2, 1)
  {
    hide Bitwise;
    var u, w := Bitwise(Or, 0, 1, 32), Bitwise(Or, 2, 1, 32);
    BitwiseSplits(Or, 0, 1, 32);
    BitwiseSplits(Or, 2, 1, 32);
    assert u / 2 == Bitwise(Or, 0, 0, 31) && w / 2 == Bitwise(Or, 1, 0, 31);
    BitwiseSplits(Or, 0, 0, 31);
    BitwiseSplits(Or, 1, 0, 31);
    BitwiseIsSmall(Or, 0, 1, 32);
    BitwiseIsSmall(Or, 2, 1, 32);
    Bits.Powers();
    WrapTells(u, w);
  }

  lemma WrapTells(u: nat, w: nat)
    requires u < 0x1_0000_0000 && w < 0x1_0000_0000 && u / 2 != w / 2
    ensures Wrap(u) != Wrap(w)
  {
  }

  lemma SumTells(i: Instr, r: Reg)
    requires i.AluRR? && Regular(i) && r in [i.rs1, i.rs2]
    ensures Matters(i, r)
  {
    var a: Regs, b: Regs := map[], map[];
    if r == i.rs1 {
      var y, x := FirstDecides(i.op);
      a, b := map[i.rs2 := y, r := 0], map[i.rs2 := y, r := x];
    } else {
      var x, y := SecondDecides(i.op);
      a, b := map[i.rs1 := x, r := 1], map[i.rs1 := x, r := y];
    }
    hide Alu;
    assert Tells(i, r, a, b);
  }

  lemma NumberTells(i: Instr, r: Reg)
    requires i.AluRI? && Regular(i) && r == i.rs != ZERO
    ensures Matters(i, r)
  {
    var x := OneDecides(i.op);
    hide Alu;
    assert Tells(i, r, map[r := 0], map[r := x]);
  }

  lemma AddressTells(i: Instr, r: Reg)
    requires (i.Load? && r == i.rs != ZERO) || (i.Store? && Regular(i) && r in [i.rs1, i.rs2])
    ensures Matters(i, r)
  {
    hide Wrap, Alu, LoadedWord, StoredBytes, Addresses;
    var a: Regs, b: Regs := map[r := 0], map[r := 1];
    WrapsApart(i.offset);
    if i.Load? {
      var n := Bytes(i.width);
      assert Addresses(Wrap(i.offset), n)[0] == Wrap(Wrap(i.offset));
      assert MemoryRead(i, NO_FORWARD, a) == Addresses(Wrap(i.offset), n);
      assert MemoryRead(i, NO_FORWARD, b) == Addresses(Wrap(1 + i.offset), n);
    } else if r == i.rs2 {
      BytesTell(i.width);
    }
    assert Tells(i, r, a, b);
  }

  lemma WrapsApart(x: Word)
    ensures Wrap(Wrap(x)) != Wrap(Wrap(1 + x)) && Wrap(x) != Wrap(1 + x)
  {
  }

  lemma BytesTell(w: Width)
    ensures StoredBytes(w, 0) != StoredBytes(w, 1)
  {
    hide StoredBytes;
    MemoryLaws.StoredAreBytes(w, 0);
    MemoryLaws.StoredAreBytes(w, 1);
    assert MemoryLaws.IsByte(StoredBytes(w, 0)[0], 0, 0) && MemoryLaws.IsByte(StoredBytes(w, 1)[0], 1, 0);
  }

  /** Every register that a regular instruction lists as read it reads: there are registers that differ there alone on
      which it does something else. */
  lemma ReadsAreNeeded(i: Instr, r: Reg)
    requires Regular(i) && r in ReadRegisters(i) && r != ZERO
    ensures Matters(i, r)
  {
    match i
    case AluRR(_, _, _, _) => SumTells(i, r);
    case AluRI(_, _, _, _) => NumberTells(i, r);
    case Load(_, _, _, _) => AddressTells(i, r);
    case Store(_, _, _, _) => AddressTells(i, r);
    case Mv(_, _) => assert Tells(i, r, map[r := 0], map[r := 1]);
    case Beqz(_, _) => assert Tells(i, r, map[r := 0], map[r := 1]);
    case Jalr(_, rs, imm) =>
      WrapIsCongruent(imm);
      WrapIsCongruent(1 + imm);
      assert Tells(i, r, map[r := 0], map[r := 1]);
    case Branch(c, rs1, rs2, _) =>
      if r == rs1 { assert Tells(i, r, map[r := -1], map[r := 0]); }
      else { assert Tells(i, r, map[r := 0], map[r := 1]); }
    case _ =>
  }

  /** Every register that an instruction declares as written it writes whenever it runs at all. */
  lemma WritesAreMade(i: Instr, f: Forward, regs: Regs, labels: map<string, Word>, pc: Word, bytes: seq<Byte>, r: Reg)
    requires r in WriteRegisters(i)
    ensures var out := Run(i, f, regs, labels, pc, bytes);
            out.Ok? ==> out.value.registerChange && out.value.register == r
  {
    hide Alu, LoadedWord, Wrap;
  }

  // ---------------------------------------------------------------- branches

  /** It goes on elsewhere, or at the next instruction, on some operands. */
  ghost predicate MayJump(i: Instr) {
    exists x: Word, y: Word, labels: map<string, Word>, pc: Word ::
      Compute(i, x, y, labels, pc, []).Ok? && Compute(i, x, y, labels, pc, []).value.pcChange
  }

  ghost predicate MayGoOn(i: Instr) {
    exists x: Word, y: Word, labels: map<string, Word>, pc: Word, bytes: seq<Byte> ::
      Compute(i, x, y, labels, pc, bytes).Ok? && !Compute(i, x, y, labels, pc, bytes).value.pcChange
  }

  lemma Jumping(i: Instr, x: Word, y: Word, target: string)
    requires IsUnconditionalBranch(i) || i.Branch? || i.Beqz?
    requires (i.J? || i.Jal? || i.Branch? || i.Beqz?) ==> i.target == target
    requires (i.Branch? ==> Isa.Holds(i.cond, x, y)) && (i.Beqz? ==> x == 0)
    ensures MayJump(i)
  {
    assert Compute(i, x, y, map[target := 0], 0, []).value.pcChange;
  }

  /** The branch units' lists are exact but for bltu: unconditional are the instructions that always change the program
      counter, conditional those that may or may not, without bltu. */
  lemma BranchesAreListed(i: Instr)
    ensures IsUnconditionalBranch(i) <==> MayJump(i) && !MayGoOn(i)
    ensures IsConditionalBranch(i) <==> MayJump(i) && MayGoOn(i) && !(i.Branch? && i.cond == Bltu)
  {
    hide Alu, LoadedWord, StoredBytes, Wrap;
    match i
    case Branch(c, _, _, target) =>
      var x, y := if c in {Blt, Bltu} then 0 else 1, if c == Beq then 1 else if c == Bne then 0 else 1;
      Jumping(i, x, y, target);
      assert !Isa.Holds(c, if c in {Bge, Bgeu} then 0 else 1, if c in {Bge, Bgeu, Bne} then 1 else 0);
      GoingOn(i, if c in {Bge, Bgeu} then 0 else 1, if c in {Bge, Bgeu, Bne} then 1 else 0, []);
    case Beqz(_, target) => Jumping(i, 0, 0, target); GoingOn(i, 1, 0, []);
    case J(target) => Jumping(i, 0, 0, target);
    case Jal(_, target) => Jumping(i, 0, 0, target);
    case Jalr(_, _, _) => Jumping(i, 0, 0, "");
    case _ =>
  }

  lemma GoingOn(i: Instr, x: Word, y: Word, bytes: seq<Byte>)
    requires var out := Compute(i, x, y, map[], 0, bytes); out.Ok? && !out.value.pcChange
    ensures MayGoOn(i)
  {
  }
}
