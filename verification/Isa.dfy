/** The instruction set: what each instruction reads, writes and does (risc/opcodes.go, risc/risc.go). */
module Isa {
  import opened Words

  datatype AluOp = Add | And | Div | Mul | Or | Rem | Sll | Slt | Sltu | Sra | Srl | Sub | Xor

  datatype Cond = Beq | Bge | Bgeu | Blt | Bltu | Bne

  datatype Width = OneByte | TwoBytes | FourBytes

  /** Register-register and register-immediate arithmetic each share one constructor. */
  datatype Instr =
    | AluRR(op: AluOp, rd: Reg, rs1: Reg, rs2: Reg)
    | AluRI(op: AluOp, rd: Reg, rs: Reg, imm: Word)
    | Li(rd: Reg, imm: Word)
    | Lui(rd: Reg, imm: Word)
    | Auipc(rd: Reg, imm: Word)
    | Mv(rd: Reg, rs: Reg)
    | Branch(cond: Cond, rs1: Reg, rs2: Reg, target: string)
    | Beqz(rs: Reg, target: string)
    | J(target: string)
    | Jal(rd: Reg, target: string)
    | Jalr(rd: Reg, rs: Reg, imm: Word)
    | Load(width: Width, rd: Reg, offset: Word, rs: Reg)
    | Store(width: Width, rs2: Reg, offset: Word, rs1: Reg)
    | Nop
    | Ret

  datatype App = App(code: seq<Instr>, labels: map<string, Word>)

  /** Why a run stops: an error the code returns, or a Go run-time panic. */
  datatype Fault = DivisionByZero | UnknownLabel | GoPanic | BadAddress

  datatype Result<+T> = Ok(value: T) | Fail(fault: Fault)

  /** The memory changes of an execution are one run of bytes from `address` on; none when `data` is empty. */
  datatype Execution = Execution(
    registerChange: bool,
    register: Reg,
    registerValue: Word,
    address: Word,
    data: seq<Byte>,
    pcChange: bool,
    nextPc: Word,
    isReturn: bool)

  /** A register value handed over before it is written back; the zero value names register zero. */
  datatype Forward = Forward(register: Reg, value: Word)

  const NO_FORWARD := Forward(ZERO, 0)

  const NO_EFFECT := Execution(false, ZERO, 0, 0, [], false, 0, false)

  function Bytes(w: Width): (n: nat)
    ensures 1 <= n <= 4
  {
    match w case OneByte => 1 case TwoBytes => 2 case FourBytes => 4
  }

  predicate IsUnconditionalBranch(i: Instr) { i.J? || i.Jal? || i.Jalr? }

  /** bltu is missing from the source's list. */
  predicate IsConditionalBranch(i: Instr) { (i.Branch? && i.cond != Bltu) || i.Beqz? }

  predicate IsBranch(i: Instr) { IsUnconditionalBranch(i) || IsConditionalBranch(i) }

  function Cycles(i: Instr): (n: nat)
    ensures 1 <= n <= 50
  {
    if i.Load? then 50 else 1
  }

  /** lh lists its destination among the registers it reads, and lists no destination. */
  function ReadRegisters(i: Instr): seq<Reg> {
    match i
    case AluRR(_, _, rs1, rs2) => [rs1, rs2]
    case AluRI(_, _, rs, _) => [rs]
    case Mv(_, rs) => [rs]
    case Branch(_, rs1, rs2, _) => [rs1, rs2]
    case Beqz(rs, _) => [rs]
    case Jalr(_, rs, _) => [rs]
    case Load(w, rd, _, rs) => if w == TwoBytes then [rs, rd] else [rs]
    case Store(_, rs2, _, rs1) => [rs1, rs2]
    case _ => []
  }

  function WriteRegisters(i: Instr): (ws: seq<Reg>)
    ensures |ws| <= 1
  {
    match i
    case AluRR(_, rd, _, _) => [rd]
    case AluRI(_, rd, _, _) => [rd]
    case Li(rd, _) => [rd]
    case Lui(rd, _) => [rd]
    case Auipc(rd, _) => [rd]
    case Mv(rd, _) => [rd]
    case Jal(rd, _) => [rd]
    case Jalr(rd, _, _) => [rd]
    case Load(w, rd, _, _) => if w == TwoBytes then [] else [rd]
    case _ => []
  }

  function RegisterRead(regs: Regs, f: Forward, r: Reg): Word {
    if r == f.register then f.value else Read(regs, r)
  }

  function Addresses(base: Word, n: nat): (s: seq<Word>)
    ensures |s| == n
    ensures forall k :: 0 <= k < n ==> s[k] == Wrap(base + k)
  {
    if n == 0 then [] else Addresses(base, n - 1) + [Wrap(base + n - 1)]
  }

  function MemoryRead(i: Instr, f: Forward, regs: Regs): seq<Word> {
    if i.Load? then Addresses(Wrap(RegisterRead(regs, f, i.rs) + i.offset), Bytes(i.width)) else []
  }

  function TruncatedQuotient(a: Word, b: Word): int
    requires b != 0
  {
    var q := (if a < 0 then 0 - a else a) / (if b < 0 then 0 - b else b);
    if (a < 0) == (b < 0) then q else -q
  }

  /** Bitwise operation on the low n bits of two's-complement numbers. */
  function Bitwise(op: AluOp, a: int, b: int, n: nat): nat
    decreases n
  {
    if n == 0 then 0 else
      var bit := match op
        case And => (a % 2) * (b % 2)
        case Or => if a % 2 + b % 2 == 0 then 0 else 1
        case _ => (a % 2 + b % 2) % 2;
      bit + 2 * Bitwise(op, a / 2, b / 2, n - 1)
  }

  /** sltu and srl are signed in the source. A negative shift count is a Go panic for >> and a huge count for <<. */
  function Alu(op: AluOp, a: Word, b: Word): Result<Word> {
    match op
    case Add => Ok(Wrap(a + b))
    case Sub => Ok(Wrap(a - b))
    case Mul => Ok(Wrap(a * b))
    case Div => if b == 0 then Fail(DivisionByZero) else Ok(Wrap(TruncatedQuotient(a, b)))
    case Rem => if b == 0 then Fail(GoPanic) else Ok(Wrap(a - b * TruncatedQuotient(a, b)))
    case Slt => Ok(if a < b then 1 else 0)
    case Sltu => Ok(if a < b then 1 else 0)
    case Sll => Ok(if 0 <= b < 32 then Wrap(a * Pow2(b)) else 0)
    case Sra => if b < 0 then Fail(GoPanic) else Ok(Wrap(a / Pow2(if b < 32 then b else 32)))
    case Srl => if b < 0 then Fail(GoPanic) else Ok(Wrap(a / Pow2(if b < 32 then b else 32)))
    case And => Ok(Wrap(Bitwise(op, a, b, 32)))
    case Or => Ok(Wrap(Bitwise(op, a, b, 32)))
    case Xor => Ok(Wrap(Bitwise(op, a, b, 32)))
  }

  predicate Holds(c: Cond, a: Word, b: Word) {
    match c
    case Beq => a == b
    case Bne => a != b
    case Blt => a < b
    case Bltu => a < b
    case Bge => a >= b
    case Bgeu => a >= b
  }

  /** IsRegisterChange: a write to register zero becomes a write of 0. */
  function RegisterWrite(rd: Reg, value: Word): Execution {
    NO_EFFECT.(registerChange := true, register := rd, registerValue := if rd == ZERO then 0 else value)
  }

  function JumpTo(target: string, labels: map<string, Word>, e: Execution): Result<Execution> {
    if target in labels then Ok(e.(pcChange := true, nextPc := labels[target])) else Fail(UnknownLabel)
  }

  /** lh ignores the sign of its two bytes. */
  function LoadedWord(w: Width, memory: seq<Byte>): Word
    requires |memory| >= Bytes(w)
  {
    match w
    case OneByte => memory[0]
    case TwoBytes => WordOf(memory[0], memory[1], 0, 0)
    case FourBytes => WordOf(memory[0], memory[1], memory[2], memory[3])
  }

  function StoredBytes(w: Width, n: Word): (s: seq<Byte>)
    ensures |s| == Bytes(w)
  {
    match w
    case OneByte => [ByteOf(n, 0)]
    case TwoBytes => [ByteOf(n, 0), ByteOf(n, 1)]
    case FourBytes => [ByteOf(n, 0), ByteOf(n, 1), ByteOf(n, 2), ByteOf(n, 3)]
  }

  function FirstOperand(i: Instr, f: Forward, regs: Regs): Word {
    match i
    case AluRR(_, _, rs1, _) => RegisterRead(regs, f, rs1)
    case AluRI(_, _, rs, _) => RegisterRead(regs, f, rs)
    case Mv(_, rs) => RegisterRead(regs, f, rs)
    case Branch(_, rs1, _, _) => RegisterRead(regs, f, rs1)
    case Beqz(rs, _) => RegisterRead(regs, f, rs)
    case Jalr(_, rs, _) => RegisterRead(regs, f, rs)
    case Store(_, _, _, rs1) => RegisterRead(regs, f, rs1)
    case _ => 0
  }

  function SecondOperand(i: Instr, f: Forward, regs: Regs): Word {
    match i
    case AluRR(_, _, _, rs2) => RegisterRead(regs, f, rs2)
    case Branch(_, _, rs2, _) => RegisterRead(regs, f, rs2)
    case Store(_, rs2, _, _) => RegisterRead(regs, f, rs2)
    case _ => 0
  }

  /** An instruction reads its registers and computes. */
  function Run(i: Instr, f: Forward, regs: Regs, labels: map<string, Word>, pc: Word,
               memory: seq<Byte>): Result<Execution> {
    Compute(i, FirstOperand(i, f, regs), SecondOperand(i, f, regs), labels, pc, memory)
  }

  function Compute(i: Instr, x: Word, y: Word, labels: map<string, Word>, pc: Word,
                   memory: seq<Byte>): Result<Execution> {
    match i
    case AluRR(op, rd, _, _) => Write(rd, Alu(op, x, y))
    case AluRI(op, rd, _, imm) => Write(rd, Alu(op, x, imm))
    case Li(rd, imm) => Ok(RegisterWrite(rd, imm))
    case Lui(rd, imm) => Ok(RegisterWrite(rd, Wrap(imm * 0x1000)))
    case Auipc(rd, imm) => Ok(RegisterWrite(rd, Wrap(pc + Wrap(imm * 0x1000))))
    case Mv(rd, _) => Ok(RegisterWrite(rd, x))
    case Branch(c, _, _, target) => if Holds(c, x, y) then JumpTo(target, labels, NO_EFFECT) else Ok(NO_EFFECT)
    case Beqz(_, target) => if x == 0 then JumpTo(target, labels, NO_EFFECT) else Ok(NO_EFFECT)
    case J(target) => JumpTo(target, labels, NO_EFFECT)
    case Jal(rd, target) => JumpTo(target, labels, RegisterWrite(rd, Wrap(pc + 4)))
    case Jalr(rd, _, imm) => Ok(RegisterWrite(rd, Wrap(pc + 4)).(pcChange := true, nextPc := Wrap(x + imm)))
    case Load(w, rd, _, _) =>
      if |memory| < Bytes(w) then Fail(GoPanic) else Ok(RegisterWrite(rd, LoadedWord(w, memory)))
    case Store(w, _, offset, _) => Ok(NO_EFFECT.(address := Wrap(x + offset), data := StoredBytes(w, y)))
    case Nop => Ok(NO_EFFECT)
    case Ret => Ok(NO_EFFECT.(isReturn := true))
  }

  function Write(rd: Reg, r: Result<Word>): Result<Execution> {
    match r case Ok(v) => Ok(RegisterWrite(rd, v)) case Fail(f) => Fail(f)
  }

  /** jal writes its own address to ra while it runs, before any write-back. */
  function DirectWrite(i: Instr, regs: Regs, pc: Word): Regs {
    if i.Jal? then regs[RA := pc] else regs
  }
}
