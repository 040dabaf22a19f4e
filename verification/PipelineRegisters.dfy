/** Registers, the queue of writes and the scoreboard of MVP-4 and MVP-5: what queued writes come to, and who sees
    them. */
module PipelineRegisters {
  import opened Words
  import opened Isa
  import opened Sequential
  import opened Pipeline
  import opened PipelineInvariant
  import opened PipelineGuard

  // ---------------------------------------------------------------- retiring

  /** A retired write is kept, unless it is declared and not positive: then the register is deleted. */
  lemma RetireShape(regs: Regs, w: WriteEntry)
    requires w.exe.registerChange && (w.writes == [w.exe.register] || w.writes == [])
    ensures var m := regs[w.exe.register := w.exe.registerValue];
            Retire(regs, w) == if w.exe.registerValue <= 0 && w.writes != [] then m - {w.exe.register} else m
  {
    if w.writes != [] {
      assert w.writes[1..] == [];
      var m := regs[w.exe.register := w.exe.registerValue];
      assert DropNonPositive(m, w.writes) == DropNonPositive(if Read(m, w.writes[0]) <= 0 then
                                                               m - {w.writes[0]} else m, []);
    }
  }

  ghost predicate Declares(w: WriteEntry) {
    if w.exe.registerChange then w.writes == [w.exe.register] || w.writes == [] else w.writes == []
  }

  /** What a retired entry leaves to read. */
  lemma RetireReads(regs: Regs, w: WriteEntry)
    requires Declares(w)
    ensures forall r: Reg :: Read(Retire(regs, w), r) == if w.exe.registerChange && r == w.exe.register then Kept(w)
            else Read(regs, r)
  {
    if w.exe.registerChange { RetireShape(regs, w); }
  }

  lemma RetireSame(a: Regs, b: Regs, w: WriteEntry)
    requires Declares(w) && SameRegs(a, b)
    ensures SameRegs(Retire(a, w), Retire(b, w))
  {
    RetireReads(a, w);
    RetireReads(b, w);
    hide Retire;
  }

  lemma DirectWriteSame(i: Instr, a: Regs, b: Regs, pc: Word)
    requires SameRegs(a, b)
    ensures SameRegs(DirectWrite(i, a, pc), DirectWrite(i, b, pc))
  {
    DirectReads(i, a, pc);
    DirectReads(i, b, pc);
    hide DirectWrite;
  }

  lemma DirectReads(i: Instr, regs: Regs, pc: Word)
    ensures forall r: Reg :: Read(DirectWrite(i, regs, pc), r) == if i.Jal? && r == RA then pc else Read(regs, r)
  {
    forall r: Reg ensures Read(DirectWrite(i, regs, pc), r) == if i.Jal? && r == RA then pc else Read(regs, r) {
    }
  }

  lemma SameTransits(a: Regs, b: Regs, c: Regs)
    requires SameRegs(b, c)
    ensures SameRegs(a, b) <==> SameRegs(a, c)
  {
  }

  /** Exactly when the write that jal makes at once ends up where program order puts it. */
  lemma JalSettles(i: Instr, regs: Regs, bus: Bus<WriteEntry>, pc: Word, w: WriteEntry)
    requires bus.pending.None? && (bus.current.Some? ==> Declares(bus.current.value)) && Declares(w)
    requires i.Jal? && w.exe.registerChange && w.exe.register == i.rd
    ensures SameRegs(Settled(DirectWrite(i, regs, pc), bus.(pending := Some(w))),
                     Retire(DirectWrite(i, Settled(regs, bus), pc), w))
       <==> RaInOrder(bus, i, pc)
  {
    hide Retire, DirectWrite;
    var early := DirectWrite(i, regs, pc);
    var late := DirectWrite(i, Settled(regs, bus), pc);
    DirectReads(i, regs, pc);
    DirectReads(i, Settled(regs, bus), pc);
    RetireReads(late, w);
    if bus.current.Some? {
      var c := bus.current.value;
      RetireReads(regs, c);
      RetireReads(early, c);
      RetireReads(Retire(early, c), w);
      RaTells(Retire(Retire(early, c), w), Retire(late, w));
    } else {
      RetireReads(early, w);
    }
  }

  lemma RaTells(a: Regs, b: Regs)
    requires forall r: Reg :: r != RA ==> Read(a, r) == Read(b, r)
    ensures SameRegs(a, b) <==> Read(a, RA) == Read(b, RA)
  {
  }

  lemma EntryIsProper(i: Instr, x: Word, y: Word, labels: map<string, Word>, pc: Word, bytes: seq<Byte>, e: Execution)
    requires Compute(i, x, y, labels, pc, bytes) == Ok(e)
    ensures Declares(Entry(i, e)) && (e.registerChange ==> e.data == [])
    ensures i.Jal? ==> e.registerChange && e.register == i.rd
    ensures IsUnconditionalBranch(i) ==> e.pcChange
    ensures e.isReturn ==> i.Ret? && e.data == [] && !e.pcChange
    ensures i.Load? ==> !e.isReturn && !e.pcChange && e.data == []
  {
  }

  // ---------------------------------------------------------------- queueing

  lemma AddNone(p: Pending)
    ensures AddAll(p, []) == p
  {
  }

  lemma AddOne(p: Pending, r: Reg)
    ensures AddAll(p, [r]) == p[r := Count(p, r) + 1]
  {
    assert AddAll(p, [r]) == AddAll(p[r := Count(p, r) + 1], [r][1..]);
  }

  lemma SendKeepsRegisters(i: Instr, e: Execution, regs: Regs, pending: Pending, bus: Bus<WriteEntry>, pc: Word,
                           refRegs: Regs, size: nat)
    requires Registers(regs, pending, bus, refRegs, size) && bus.pending.None?
    requires Proper(Entry(i, e), size) && (i.Jal? ==> e.registerChange && e.register == i.rd)
    ensures Registers(DirectWrite(i, regs, pc), AddAll(pending, WriteRegisters(i)), bus.(pending := Some(Entry(i, e))),
                      Written(Dropping, DirectWrite(i, refRegs, pc), i, e), size)
       <==> RaInOrder(bus, i, pc)
  {
    hide WriteRegisters, Retire, DirectWrite, SameRegs, RaInOrder;
    SendSettles(i, e, regs, bus, pc, refRegs);
    var ws := WriteRegisters(i);
    if ws != [] {
      assert ws == [ws[0]];
      AddOne(pending, ws[0]);
    }
    var bus1 := bus.(pending := Some(Entry(i, e)));
    forall r: Reg | r != ZERO
      ensures Count(AddAll(pending, ws), r) == WritersOf(bus1, r)
    {
      assert Count(pending, r) == WritersOf(bus, r);
      assert bus1.pending.value.writes == ws;
    }
  }

  /** The registers with the new entry on the bus, against the reference's next. */
  lemma SendSettles(i: Instr, e: Execution, regs: Regs, bus: Bus<WriteEntry>, pc: Word, refRegs: Regs)
    requires SameRegs(Settled(regs, bus), refRegs) && bus.pending.None?
             && (bus.current.Some? ==> Declares(bus.current.value))
    requires Declares(Entry(i, e)) && (i.Jal? ==> e.registerChange && e.register == i.rd)
    ensures SameRegs(Settled(DirectWrite(i, regs, pc), bus.(pending := Some(Entry(i, e)))),
                     Written(Dropping, DirectWrite(i, refRegs, pc), i, e))
       <==> RaInOrder(bus, i, pc)
  {
    hide Retire, SameRegs;
    var w := Entry(i, e);
    DirectWriteSame(i, Settled(regs, bus), refRegs, pc);
    RetireSame(DirectWrite(i, Settled(regs, bus), pc), DirectWrite(i, refRegs, pc), w);
    var now := Settled(DirectWrite(i, regs, pc), bus.(pending := Some(w)));
    SameTransits(now, Retire(DirectWrite(i, Settled(regs, bus), pc), w), Retire(DirectWrite(i, refRegs, pc), w));
    if i.Jal? { JalSettles(i, regs, bus, pc, w); } else { SameSelf(now); }
  }

  lemma SameSelf(regs: Regs)
    ensures SameRegs(regs, regs)
  {
  }

  // ---------------------------------------------------------------- reading

  /** No hazard and no unseen write among the registers read: they hold their reference values. */
  lemma SeenReadsReference(i: Instr, regs: Regs, bus: Bus<WriteEntry>, refRegs: Regs)
    requires SameRegs(Settled(regs, bus), refRegs) && OperandsSeen(regs, bus, i)
    ensures forall k :: 0 <= k < |ReadRegisters(i)| ==>
      RegisterRead(regs, NO_FORWARD, ReadRegisters(i)[k]) == RegisterRead(refRegs, NO_FORWARD, ReadRegisters(i)[k])
  {
  }

  /** A queued write of an lh that changes a register the instruction reads. */
  ghost predicate StaleThrough(regs: Regs, bus: Bus<WriteEntry>, i: Instr) {
    && bus.current.Some? && bus.current.value.exe.registerChange && bus.current.value.writes == []
    && bus.current.value.exe.register != ZERO && bus.current.value.exe.register in ReadRegisters(i)
    && Read(regs, bus.current.value.exe.register) != bus.current.value.exe.registerValue
  }

  /** A register without a pending write changes only through an undeclared one. */
  lemma UnseenThrough(regs: Regs, pending: Pending, bus: Bus<WriteEntry>, refRegs: Regs, size: nat, r: Reg)
    requires Registers(regs, pending, bus, refRegs, size) && bus.pending.None?
    requires bus.current.Some? && bus.current.value.exe.registerChange && r != ZERO && Count(pending, r) <= 0
    ensures var e := bus.current.value.exe;
            Read(regs, r) == Read(Settled(regs, bus), r) <==> !(r == e.register && Read(regs, r) != e.registerValue)
    ensures r == bus.current.value.exe.register ==> bus.current.value.writes == []
  {
    var w := bus.current.value;
    RetireShape(regs, w);
    assert Count(pending, r) == WritersOf(bus, r);
    assert r !in w.writes;
    hide Retire;
  }

  lemma NothingQueued(regs: Regs, bus: Bus<WriteEntry>)
    requires bus.pending.None? && (bus.current.Some? ==> !bus.current.value.exe.registerChange)
    ensures Settled(regs, bus) == regs
  {
  }

  /** Past the scoreboard an operand is stale exactly when an undeclared write, which only lh makes, is queued for
      it. */
  lemma OnlyUndeclaredIsUnseen(i: Instr, regs: Regs, pending: Pending, bus: Bus<WriteEntry>, refRegs: Regs, size: nat)
    requires Registers(regs, pending, bus, refRegs, size) && bus.pending.None?
             && !IsWriteHazard(pending, ReadRegisters(i))
    ensures OperandsSeen(regs, bus, i) <==> !StaleThrough(regs, bus, i)
  {
    hide ReadRegisters, Settled, Registers, Read;
    var rs := ReadRegisters(i);
    if bus.current.Some? && bus.current.value.exe.registerChange {
      var w := bus.current.value;
      forall k | 0 <= k < |rs| && rs[k] != ZERO
        ensures Read(regs, rs[k]) == Read(Settled(regs, bus), rs[k])
                <==> !(rs[k] == w.exe.register && Read(regs, rs[k]) != w.exe.registerValue)
        ensures rs[k] == w.exe.register ==> w.writes == []
      {
        assert Count(pending, rs[k]) <= 0;
        UnseenThrough(regs, pending, bus, refRegs, size, rs[k]);
      }
      if StaleThrough(regs, bus, i) {
        var k :| 0 <= k < |rs| && rs[k] == w.exe.register;
        assert Read(regs, rs[k]) != Read(Settled(regs, bus), rs[k]);
      }
    } else {
      NothingQueued(regs, bus);
    }
  }
}
