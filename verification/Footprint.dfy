/** What an instruction declares to read and write is what it reads and writes (risc/opcodes.go). */
module Footprint {
  import opened Words
  import opened Isa
  import opened Sequential

  ghost predicate AgreeOn(a: Regs, b: Regs, rs: seq<Reg>) {
    forall k :: 0 <= k < |rs| ==> Read(a, rs[k]) == Read(b, rs[k])
  }

  /** The outcome of an instruction and the addresses it loads from depend only on what it reads of the registers it
      lists, whether that comes from the registers or was handed over. */
  lemma ReadsAreComplete(i: Instr, f: Forward, a: Regs, g: Forward, b: Regs, labels: map<string, Word>, pc: Word,
                         bytes: seq<Byte>)
    requires forall k :: 0 <= k < |ReadRegisters(i)| ==>
      RegisterRead(a, f, ReadRegisters(i)[k]) == RegisterRead(b, g, ReadRegisters(i)[k])
    ensures Run(i, f, a, labels, pc, bytes) == Run(i, g, b, labels, pc, bytes)
    ensures MemoryRead(i, f, a) == MemoryRead(i, g, b)
  {
    hide Compute, RegisterRead, Addresses, Wrap;
    var rs := ReadRegisters(i);
    match i
    case AluRR(_, _, rs1, rs2) => assert rs[0] == rs1 && rs[1] == rs2;
    case AluRI(_, _, r, _) => assert rs[0] == r;
    case Mv(_, r) => assert rs[0] == r;
    case Branch(_, rs1, rs2, _) => assert rs[0] == rs1 && rs[1] == rs2;
    case Beqz(r, _) => assert rs[0] == r;
    case Jalr(_, r, _) => assert rs[0] == r;
    case Load(_, _, _, r) => assert rs[0] == r;
    case Store(_, rs2, _, rs1) => assert rs[0] == rs1 && rs[1] == rs2;
    case _ =>
  }

  // ---------------------------------------------------------------- what is written

  /** lh writes a register it does not declare, and jal writes ra whatever it declares. */
  predicate DeclaresItsWrites(i: Instr) {
    !(i.Load? && i.width == TwoBytes && i.rd != ZERO) && !(i.Jal? && i.rd != RA)
  }

  /** The registers after an instruction has run and been written back, as in MVP-1. */
  function RegistersAfter(i: Instr, regs: Regs, pc: Word, e: Execution): Regs {
    Written(Plain, DirectWrite(i, regs, pc), i, e)
  }

  ghost predicate KeepsOthers(i: Instr, regs: Regs, labels: map<string, Word>, pc: Word, bytes: seq<Byte>) {
    match Run(i, NO_FORWARD, regs, labels, pc, bytes)
    case Fail(_) => true
    case Ok(e) => forall r: Reg :: r != ZERO && r !in WriteRegisters(i) ==>
      Read(RegistersAfter(i, regs, pc, e), r) == Read(regs, r)
  }

  lemma OneWord()
    ensures WordOf(1, 0, 0, 0) == 1
  {
  }

  /** A register that lh or jal changes behind its declaration. */
  lemma UndeclaredLoad(i: Instr)
    requires i.Load? && i.width == TwoBytes && i.rd != ZERO
    ensures !KeepsOthers(i, map[], map[], 4, [1, 0])
  {
    hide WordOf, Alu;
    OneWord();
    var e := RegisterWrite(i.rd, 1);
    assert Run(i, NO_FORWARD, map[], map[], 4, [1, 0]) == Ok(e);
    assert Read(RegistersAfter(i, map[], 4, e), i.rd) == 1;
  }

  lemma UndeclaredJump(i: Instr)
    requires i.Jal? && i.rd != RA
    ensures !KeepsOthers(i, map[], map[i.target := 0], 4, [])
  {
    var e := RegisterWrite(i.rd, 8).(pcChange := true, nextPc := 0);
    assert Run(i, NO_FORWARD, map[], map[i.target := 0], 4, []) == Ok(e);
    assert Read(RegistersAfter(i, map[], 4, e), RA) == 4;
  }

  /** Exactly which instructions change nothing but what they declare, whatever they run on. */
  lemma WritesAreComplete(i: Instr)
    ensures DeclaresItsWrites(i) <==>
      forall regs: Regs, labels: map<string, Word>, pc: Word, bytes: seq<Byte> ::
          KeepsOthers(i, regs, labels, pc, bytes)
  {
    if DeclaresItsWrites(i) {
      forall regs: Regs, labels: map<string, Word>, pc: Word, bytes: seq<Byte>
        ensures KeepsOthers(i, regs, labels, pc, bytes) {
        DeclaredWrite(i, regs, labels, pc, bytes);
      }
    } else if i.Load? {
      UndeclaredLoad(i);
    } else {
      UndeclaredJump(i);
    }
  }

  lemma DeclaredWrite(i: Instr, regs: Regs, labels: map<string, Word>, pc: Word, bytes: seq<Byte>)
    requires DeclaresItsWrites(i)
    ensures KeepsOthers(i, regs, labels, pc, bytes)
  {
    var out := Run(i, NO_FORWARD, regs, labels, pc, bytes);
    if out.Ok? && out.value.registerChange {
      assert out.value.register == ZERO || out.value.register in WriteRegisters(i);
    }
  }
}
