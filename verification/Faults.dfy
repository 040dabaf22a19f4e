/** Loads and stores outside memory: where MVP-1 panics, MVP-3 may go on (proc/mvp3/mmu.go, proc/mvp3/cpu.go). */
module Faults {
  import opened Words
  import opened Isa
  import opened Cache
  import opened Mmu
  import opened Sequential
  import opened Coherence

  /** A load whose line starts so high that its end wraps around, or below zero, cannot be served by a line of its
      own. */
  predicate Servable(a: Word) { 0 <= a < 0x8000_0000 - LINE_LENGTH }

  /** The front line serves addresses it covers, and stays in front. */
  lemma {:induction false} FrontServes(lines: seq<Line>, addrs: seq<Word>)
    requires lines != [] && forall k :: 0 <= k < |addrs| ==> Covers(lines[0], addrs[k])
    ensures var r := GetAll(lines, addrs);
            r.0.Some? && r.1 == lines && forall k :: 0 <= k < |addrs| ==> r.0.value[k] == At(lines[0], addrs[k])
    decreases |addrs|
  {
    if addrs != [] {
      assert Find(lines, addrs[0]) == 0 && ToFront(lines, 0) == lines;
      FrontServes(lines, addrs[1..]);
      var r := GetAll(lines, addrs);
      forall k | 0 <= k < |addrs| ensures r.0.value[k] == At(lines[0], addrs[k]) {
        if k > 0 { assert addrs[k] == addrs[1..][k - 1]; }
      }
    }
  }

  /** With a line of its own: the bytes of memory, and zeros behind its end. */
  lemma ServedMiss(lines: seq<Line>, memory: Memory, addrs: seq<Word>)
    requires 0 < |addrs| <= 4 && (exists b: Word :: addrs == Addresses(b, |addrs|)) && Servable(addrs[0])
    ensures var l := LoadMiss(lines, memory, addrs);
            && l.Some? && l.value.memory == memory
            && forall k :: 0 <= k < |addrs| ==>
                 addrs[k] >= 0 && l.value.bytes[k] == if addrs[k] < |memory| then memory[addrs[k]] else 0
  {
    var line := Line(addrs[0], Wrap(addrs[0] + LINE_LENGTH), FetchLine(memory, addrs[0]));
    var lines1 := Push(lines, NUMBER_OF_LINES, line);
    WritingBackIncomingIsIdle(memory, addrs[0]);
    assert lines1[0] == line;
    forall k | 0 <= k < |addrs| ensures addrs[k] == addrs[0] + k && Covers(line, addrs[k]) {
      AddressesAreConsecutive(addrs[0], |addrs|, k, addrs);
    }
    FrontServes(lines1, addrs);
    hide GetAll, Push;
  }

  /** Without one, and with the addresses not all resident, the source panics. */
  lemma UnservedMiss(lines: seq<Line>, memory: Memory, addrs: seq<Word>)
    requires |lines| <= NUMBER_OF_LINES && addrs != [] && !Servable(addrs[0]) && GetAll(lines, addrs).0.None?
    ensures LoadMiss(lines, memory, addrs).None?
  {
    if addrs[0] >= 0 {
      var line := Line(addrs[0], Wrap(addrs[0] + LINE_LENGTH), FetchLine(memory, addrs[0]));
      var lines1 := Push(lines, NUMBER_OF_LINES, line);
      assert line.hi < 0;
      PushMembers(lines, line);
      GetAllPermutes(lines, addrs);
      GetAllPermutes(lines1, addrs);
      var k :| 0 <= k < |addrs| && !Resident(lines, addrs[k]);
      assert !Resident(lines1, addrs[k]);
      hide GetAll, Push, FetchLine;
    }
  }

  lemma LoadsFromAddresses(i: Instr, regs: Regs)
    requires i.Load?
    ensures var addrs := MemoryRead(i, NO_FORWARD, regs);
            |addrs| == Bytes(i.width) && exists b: Word :: addrs == Addresses(b, |addrs|)
  {
    var b := Wrap(RegisterRead(regs, NO_FORWARD, i.rs) + i.offset);
    assert MemoryRead(i, NO_FORWARD, regs) == Addresses(b, Bytes(i.width));
  }

  lemma SameLinesMiss(lines: seq<Line>, addrs: seq<Word>)
    requires GetAll(lines, addrs).0.None?
    ensures |GetAll(lines, addrs).1| == |lines| && GetAll(GetAll(lines, addrs).1, addrs).0.None?
  {
    GetAllPermutes(lines, addrs);
    var lines1 := GetAll(lines, addrs).1;
    GetAllPermutes(lines1, addrs);
    var k :| 0 <= k < |addrs| && !Resident(lines, addrs[k]);
    assert !Resident(lines1, addrs[k]);
    hide GetAll;
  }

  /** The load outside memory that MVP-3 also refuses. */
  predicate Refused(lines: seq<Line>, addrs: seq<Word>)
    requires addrs != []
  {
    GetAll(lines, addrs).0.None? && !Servable(addrs[0])
  }

  /** Where MVP-1 panics on a load outside memory, MVP-3 panics if and only if some address is not resident and the line
      would start below zero or within its length of the largest address. Otherwise it goes on, on a miss with the bytes
      of memory and zeros behind its end, on a hit with what the lines hold. */
  lemma FaultingLoad(mode: WriteBack, app: App, order: seq<Word>, c: Cached, f: Flat)
    requires c.pc == f.pc && c.regs == f.regs && |c.lines| <= NUMBER_OF_LINES
    requires 0 <= Index(f.pc) < |app.code| && app.code[Index(f.pc)].Load?
    requires !InRange(f.memory, MemoryRead(app.code[Index(f.pc)], NO_FORWARD, f.regs))
    ensures var addrs := MemoryRead(app.code[Index(f.pc)], NO_FORWARD, f.regs);
            && Step(mode, app, f) == FlatStop(Error(BadAddress)) && addrs != []
            && (StepCached(mode, app, order, c) == CachedStop(Error(BadAddress)) <==> Refused(c.lines, addrs))
            && (!Refused(c.lines, addrs) ==> StepCached(mode, app, order, c).CachedNext?)
            && (GetAll(c.lines, addrs).0.None? && Servable(addrs[0]) ==>
                  var l := FetchOperands(c.lines, c.memory, addrs);
                  && l.Some? && |l.value.bytes| == |addrs|
                  && forall k :: 0 <= k < |addrs| ==>
                       addrs[k] >= 0 && l.value.bytes[k] == if addrs[k] < |c.memory| then c.memory[addrs[k]] else 0)
  {
    var i := app.code[Index(f.pc)];
    var addrs := MemoryRead(i, NO_FORWARD, f.regs);
    LoadsFromAddresses(i, f.regs);
    var g := GetAll(c.lines, addrs);
    if g.0.None? {
      SameLinesMiss(c.lines, addrs);
      if Servable(addrs[0]) { ServedMiss(g.1, c.memory, addrs); } else { UnservedMiss(g.1, c.memory, addrs); }
    }
    var l := FetchOperands(c.lines, c.memory, addrs);
    if l.Some? { LoadGoesOn(i, f.regs, app.labels, f.pc, l.value.bytes); }
    hide GetAll, LoadMiss, MemoryRead, Run;
  }

  lemma LoadGoesOn(i: Instr, regs: Regs, labels: map<string, Word>, pc: Word, bytes: seq<Byte>)
    requires i.Load? && |bytes| == Bytes(i.width)
    ensures var out := Run(i, NO_FORWARD, regs, labels, pc, bytes);
            out.Ok? && out.value.registerChange && !out.value.isReturn
  {
  }

  // ---------------------------------------------------------------- stores

  /** All addresses of the store are resident, and the first line that covers it has room for all of its bytes. */
  predicate Swallowed(lines: seq<Line>, order: seq<Word>, e: Execution) {
    var (hit, lines1) := LookUp(lines, order, e);
    hit.Some? && WriteTo(lines1, e.address, e.data).Some?
  }

  /** Where MVP-1 panics on a store outside memory, MVP-3 goes on if and only if the L1D swallows the store. */
  lemma FaultingStore(mode: WriteBack, app: App, order: seq<Word>, c: Cached, f: Flat)
    requires c.pc == f.pc && c.regs == f.regs && |c.memory| == |f.memory|
    requires 0 <= Index(f.pc) < |app.code| && app.code[Index(f.pc)].Store?
    requires Step(mode, app, f) == FlatStop(Error(BadAddress))
    ensures var e := StoreExecution(app, f.pc, f.regs, app.code[Index(f.pc)]);
            StepCached(mode, app, order, c)
            == if !Swallowed(c.lines, order, e) then CachedStop(Error(BadAddress)) else
                 var (_, lines1) := LookUp(c.lines, order, e);
                 CachedNext(Cached(c.regs, Wrap(c.pc + 4), WriteTo(lines1, e.address, e.data).value, c.memory))
  {
    var i := app.code[Index(f.pc)];
    StoreOnFlat(mode, app, f, i);
    StoreOnCached(mode, app, order, c, i);
    hide Step, StepCached, Run, LookUp, WriteTo;
  }

  lemma StoreOnCached(mode: WriteBack, app: App, order: seq<Word>, c: Cached, i: Instr)
    requires 0 <= Index(c.pc) < |app.code| && i == app.code[Index(c.pc)] && i.Store?
    ensures var e := StoreExecution(app, c.pc, c.regs, i);
            StepCached(mode, app, order, c) == match StoreThrough(c.lines, c.memory, order, e)
               case None => CachedStop(Error(BadAddress))
               case Some(st) => CachedNext(Cached(c.regs, Wrap(c.pc + 4), st.lines, st.memory))
  {
    hide StoreThrough, StoredBytes;
  }

  /** Such a store, if it starts behind the end of memory, leaves no trace there: the L1D stays coherent with memory as
      it was, so the final write-back cuts the bytes off. */
  lemma SwallowedIsDropped(lines: seq<Line>, memory: Memory, flat: Memory, order: seq<Word>, e: Execution)
    requires Coherent(lines, memory, flat) && e.address >= |flat| && Swallowed(lines, order, e)
    ensures Coherent(WriteTo(LookUp(lines, order, e).1, e.address, e.data).value, memory, flat)
  {
    var lines1 := LookUp(lines, order, e).1;
    GetAllPermutes(lines, Arrange(order, Addresses(e.address, |e.data|)));
    SameLinesSameView(lines, lines1, memory, flat);
    hide LookUp, GetAll;
    WrittenBehind(lines1, memory, flat, e.address, e.data);
  }

  lemma WrittenBehind(lines: seq<Line>, memory: Memory, flat: Memory, address: Word, data: seq<Byte>)
    requires Coherent(lines, memory, flat) && address >= |flat| && WriteTo(lines, address, data).Some?
    ensures Coherent(WriteTo(lines, address, data).value, memory, flat)
  {
    var i := Find(lines, address);
    var lines1 := WriteTo(lines, address, data).value;
    SameRangesSameResidents(lines, lines1);
    forall l | l in lines1 ensures Shaped(l) {
      var j :| 0 <= j < |lines1| && lines1[j] == l;
      assert lines[j] in lines;
    }
    forall l, a: Word | l in lines1 && Covers(l, a) && 0 <= a < |flat| ensures At(l, a) == flat[a] {
      var j :| 0 <= j < |lines1| && lines1[j] == l;
      assert lines[j] in lines && Covers(lines[j], a);
      if j == i { OverwrittenAt(lines[i], address, data, a); }
    }
  }

  // ---------------------------------------------------------------- both

  /** MVP-3 panics on its next instruction as MVP-1 does, if that one panics on an address. */
  predicate Refuses(app: App, order: seq<Word>, c: Cached)
    requires 0 <= Index(c.pc) < |app.code|
  {
    var i := app.code[Index(c.pc)];
    var addrs := MemoryRead(i, NO_FORWARD, c.regs);
    && (addrs != [] ==> Refused(c.lines, addrs))
    && (i.Store? ==> !Swallowed(c.lines, order, StoreExecution(app, c.pc, c.regs, i)))
  }

  /** MVP-3 stops where MVP-1 does, for the same reason. */
  predicate Shares(app: App, order: seq<Word>, c: Cached, stop: Stop) {
    stop == Error(BadAddress) ==> 0 <= Index(c.pc) < |app.code| && Refuses(app, order, c)
  }

  /** Exactly when MVP-3 shares a panic of MVP-1 on an address; otherwise it goes on. */
  lemma FaultIsShared(mode: WriteBack, app: App, order: seq<Word>, c: Cached, f: Flat)
    requires c.pc == f.pc && c.regs == f.regs && |c.memory| == |f.memory| && |c.lines| <= NUMBER_OF_LINES
    requires Step(mode, app, f) == FlatStop(Error(BadAddress))
    ensures 0 <= Index(c.pc) < |app.code|
    ensures StepCached(mode, app, order, c) == CachedStop(Error(BadAddress)) <==> Refuses(app, order, c)
    ensures !Refuses(app, order, c) ==> StepCached(mode, app, order, c).CachedNext?
  {
    var i := app.code[Index(c.pc)];
    OnlyMemoryFaults(mode, app, f);
    hide Step, StepCached, Refused, Swallowed, Run;
    if i.Load? { FaultingLoad(mode, app, order, c, f); } else { FaultingStore(mode, app, order, c, f); }
  }

  lemma OnlyMemoryFaults(mode: WriteBack, app: App, f: Flat)
    requires Step(mode, app, f) == FlatStop(Error(BadAddress))
    ensures 0 <= Index(f.pc) < |app.code|
    ensures var i := app.code[Index(f.pc)];
            i.Store? || (i.Load? && !InRange(f.memory, MemoryRead(i, NO_FORWARD, f.regs)))
  {
    var i := app.code[Index(f.pc)];
    var addrs := MemoryRead(i, NO_FORWARD, f.regs);
    if InRange(f.memory, addrs) { RunNeverFaults(i, f.regs, app.labels, f.pc, BytesAt(f.memory, addrs)); }
    hide Run;
  }

  /** No instruction but a store has memory changes, and none finds a bad address on its own. */
  lemma RunNeverFaults(i: Instr, regs: Regs, labels: map<string, Word>, pc: Word, bytes: seq<Byte>)
    ensures match Run(i, NO_FORWARD, regs, labels, pc, bytes)
            case Ok(e) => !i.Store? ==> e.data == []
            case Fail(f) => f != BadAddress
  {
  }
}
