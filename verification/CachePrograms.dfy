/** Whole programs on which MVP-3 does not end as MVP-1 does: one for each way its L1D shows. */
module CachePrograms {
  import opened Words
  import opened Isa
  import opened Cache
  import opened Mmu
  import opened Sequential
  import opened CoherentRun
  import Coherence
  import Faults

  // ---------------------------------------------------------------- steps of both cores

  function LoadByte(rd: Reg, a: Word): Instr { Load(OneByte, rd, a, ZERO) }

  function StoreByte(rs: Reg, a: Word): Instr { Store(OneByte, rs, a, ZERO) }

  lemma LoadSteps(app: App, order: seq<Word>, c: Cached, f: Flat, rd: Reg, a: Word, l: Loaded)
    requires 0 <= Index(c.pc) < |app.code| && app.code[Index(c.pc)] == LoadByte(rd, a) && rd != ZERO && ZERO !in c.regs
    requires LoadThrough(c.lines, c.memory, [a]) == Some(l) && |l.bytes| == 1
    ensures StepCached(Plain, app, order, c)
         == CachedNext(Cached(c.regs[rd := l.bytes[0]], Wrap(c.pc + 4), l.lines, l.memory))
    ensures f.pc == c.pc && ZERO !in f.regs && 0 <= a < |f.memory| ==>
      Step(Plain, app, f) == FlatNext(Flat(f.regs[rd := f.memory[a]], Wrap(f.pc + 4), f.memory))
  {
    hide LoadThrough, MemoryRead, Run;
    var i := app.code[Index(c.pc)];
    ReadsByte(i, rd, a, c.regs, app.labels, c.pc, l.bytes);
    if f.pc == c.pc && ZERO !in f.regs && 0 <= a < |f.memory| {
      ReadsByte(i, rd, a, f.regs, app.labels, f.pc, [f.memory[a]]);
      assert BytesAt(f.memory, [a]) == [f.memory[a]];
    }
  }

  lemma ReadsByte(i: Instr, rd: Reg, a: Word, regs: Regs, labels: map<string, Word>, pc: Word, bytes: seq<Byte>)
    requires i == LoadByte(rd, a) && rd != ZERO && ZERO !in regs && |bytes| == 1
    ensures MemoryRead(i, NO_FORWARD, regs) == [a]
    ensures Run(i, NO_FORWARD, regs, labels, pc, bytes) == Ok(RegisterWrite(rd, bytes[0]))
  {
    assert Addresses(a, 0) == [] && Addresses(a, 1) == [a];
  }

  lemma LiSteps(app: App, order: seq<Word>, c: Cached, f: Flat, rd: Reg, v: Word)
    requires 0 <= Index(c.pc) < |app.code| && app.code[Index(c.pc)] == Li(rd, v) && rd != ZERO
    ensures StepCached(Plain, app, order, c) == CachedNext(c.(regs := c.regs[rd := v], pc := Wrap(c.pc + 4)))
    ensures f.pc == c.pc ==> Step(Plain, app, f) == FlatNext(f.(regs := f.regs[rd := v], pc := Wrap(f.pc + 4)))
  {
    assert BytesAt(f.memory, []) == [];
  }

  lemma StoreSteps(app: App, order: seq<Word>, c: Cached, f: Flat, rs: Reg, a: Word, b: Byte)
    requires 0 <= Index(c.pc) < |app.code| && app.code[Index(c.pc)] == StoreByte(rs, a) && ZERO !in c.regs
             && Read(c.regs, rs) == b
    requires Find(c.lines, a) < |c.lines|
    ensures var lines1 := ToFront(c.lines, Find(c.lines, a));
            StepCached(Plain, app, order, c)
            == match WriteTo(lines1, a, [b])
               case None => CachedStop(Error(BadAddress))
               case Some(w) => CachedNext(Cached(c.regs, Wrap(c.pc + 4), w, c.memory))
    ensures f.pc == c.pc && f.regs == c.regs ==>
      Step(Plain, app, f) == if 0 <= a < |f.memory| then FlatNext(Flat(f.regs, Wrap(f.pc + 4), f.memory[a := b]))
                             else FlatStop(Error(BadAddress))
  {
    var i := app.code[Index(c.pc)];
    var e := NO_EFFECT.(address := a, data := [b]);
    StoredByte(i, c.regs, app, c.pc, a, b, e);
    Faults.StoreOnCached(Plain, app, order, c, i);
    StoreFinds(c.lines, order, e, a, b);
    if f.pc == c.pc && f.regs == c.regs {
      StoreOnFlat(Plain, app, f, i);
      if 0 <= a < |f.memory| { assert WriteTruncated(f.memory, a, [b]) == f.memory[a := b]; }
    }
    hide Step, StepCached, Run, LookUp, WriteTo, Find, ToFront;
  }

  lemma StoredByte(i: Instr, regs: Regs, app: App, pc: Word, a: Word, b: Byte, e: Execution)
    requires i.Store? && i.width == OneByte && i.offset == a && i.rs1 == ZERO && ZERO !in regs && Read(regs, i.rs2) == b
    requires e == NO_EFFECT.(address := a, data := [b])
    ensures StoreExecution(app, pc, regs, i) == e
  {
    assert Pow2(0) == 1 && Pow2(8 * 0) == 1;
  }

  lemma StoreFinds(lines: seq<Line>, order: seq<Word>, e: Execution, a: Word, b: Byte)
    requires e.address == a && e.data == [b] && Find(lines, a) < |lines|
    ensures LookUp(lines, order, e) == (Some([At(lines[Find(lines, a)], a)]), ToFront(lines, Find(lines, a)))
  {
    assert Addresses(a, 0) == [] && Addresses(a, 1) == [a];
    var s := Arrange(order, [a]);
    assert |s| == |multiset(s)| == 1;
    assert s[0] in multiset(s);
    assert s == [a];
    OneAddress(lines, a);
  }

  // ---------------------------------------------------------------- runs of both cores

  /** Both cores after k instructions. */
  ghost predicate Reach(app: App, orders: nat -> seq<Word>, memory: Memory, k: nat, c: Cached, f: Flat) {
    && Reference(Plain, app, orders, Cached(map[], 0, [], memory), k) == Some(c)
    && FlatAfter(Plain, app, Flat(map[], 0, memory), k) == Some(f)
  }

  lemma ReachStart(app: App, orders: nat -> seq<Word>, memory: Memory)
    ensures Reach(app, orders, memory, 0, Cached(map[], 0, [], memory), Flat(map[], 0, memory))
  {
  }

  lemma ReachNext(app: App, orders: nat -> seq<Word>, memory: Memory, k: nat, c: Cached, f: Flat, c1: Cached, f1: Flat)
    requires Reach(app, orders, memory, k, c, f)
    requires StepCached(Plain, app, orders(k), c) == CachedNext(c1) && Step(Plain, app, f) == FlatNext(f1)
    ensures Reach(app, orders, memory, k + 1, c1, f1)
  {
    hide StepCached, Step;
  }

  /** A load on both, of the address of the k-th instruction. */
  lemma ReachLoad(app: App, orders: nat -> seq<Word>, memory: Memory, k: nat, c: Cached, f: Flat, rd: Reg, a: Word,
                  l: Loaded)
    requires Reach(app, orders, memory, k, c, f) && c.pc == f.pc == 4 * k && k < |app.code| < 0x1000_0000
    requires app.code[k] == LoadByte(rd, a) && rd != ZERO && ZERO !in c.regs && ZERO !in f.regs && 0 <= a < |f.memory|
    requires LoadThrough(c.lines, c.memory, [a]) == Some(l) && |l.bytes| == 1
    ensures Reach(app, orders, memory, k + 1, Cached(c.regs[rd := l.bytes[0]], 4 * (k + 1), l.lines, l.memory),
                  Flat(f.regs[rd := f.memory[a]], 4 * (k + 1), f.memory))
  {
    hide Reach, LoadThrough;
    LoadSteps(app, orders(k), c, f, rd, a, l);
    ReachNext(app, orders, memory, k, c, f, Cached(c.regs[rd := l.bytes[0]], 4 * (k + 1), l.lines, l.memory),
              Flat(f.regs[rd := f.memory[a]], 4 * (k + 1), f.memory));
  }

  lemma ReachLi(app: App, orders: nat -> seq<Word>, memory: Memory, k: nat, c: Cached, f: Flat, rd: Reg, v: Word)
    requires Reach(app, orders, memory, k, c, f) && c.pc == f.pc == 4 * k && k < |app.code| < 0x1000_0000
    requires app.code[k] == Li(rd, v) && rd != ZERO
    ensures Reach(app, orders, memory, k + 1, c.(regs := c.regs[rd := v], pc := 4 * (k + 1)),
                  f.(regs := f.regs[rd := v], pc := 4 * (k + 1)))
  {
    hide Reach;
    LiSteps(app, orders(k), c, f, rd, v);
    ReachNext(app, orders, memory, k, c, f, c.(regs := c.regs[rd := v], pc := 4 * (k + 1)),
              f.(regs := f.regs[rd := v], pc := 4 * (k + 1)));
  }

  lemma ReachStore(app: App, orders: nat -> seq<Word>, memory: Memory, k: nat, c: Cached, f: Flat, rs: Reg, a: Word,
                   b: Byte, w: seq<Line>)
    requires Reach(app, orders, memory, k, c, f) && c.pc == f.pc == 4 * k && c.regs == f.regs
             && k < |app.code| < 0x1000_0000
    requires app.code[k] == StoreByte(rs, a) && ZERO !in c.regs && Read(c.regs, rs) == b && 0 <= a < |f.memory|
    requires Find(c.lines, a) < |c.lines| && WriteTo(ToFront(c.lines, Find(c.lines, a)), a, [b]) == Some(w)
    ensures Reach(app, orders, memory, k + 1, c.(pc := 4 * (k + 1), lines := w),
                  f.(pc := 4 * (k + 1), memory := f.memory[a := b]))
  {
    hide Reach, WriteTo, Find, ToFront;
    StoreSteps(app, orders(k), c, f, rs, a, b);
    ReachNext(app, orders, memory, k, c, f, c.(pc := 4 * (k + 1), lines := w),
              f.(pc := 4 * (k + 1), memory := f.memory[a := b]));
  }

  lemma IncomingIsClear(memory: Memory, lo: Word)
    requires 0 <= lo < 2048 && forall k :: 0 <= k < |memory| ==> memory[k] == 0
    ensures Coherence.Incoming(memory, lo) == Clear(lo)
  {
  }

  // ---------------------------------------------------------------- overlapping lines

  /** The front line after the store. */
  function Stored(): Line { Overwrite(Clear(0), 40, [1]) }

  function OverlapProgram(): App {
    App([LoadByte(5, 32), LoadByte(5, 0), Li(6, 1), StoreByte(6, 40), LoadByte(5, 80), LoadByte(5, 40)], map[])
  }

  lemma OverlapCode(app: App)
    requires app == OverlapProgram()
    ensures |app.code| == 6 && app.code[0] == LoadByte(5, 32) && app.code[1] == LoadByte(5, 0)
            && app.code[2] == Li(6, 1)
    ensures app.code[3] == StoreByte(6, 40) && app.code[4] == LoadByte(5, 80) && app.code[5] == LoadByte(5, 40)
  {
  }

  /** The lines at the missed addresses. */
  lemma OverlapMisses(m: Memory)
    requires m == Zeros(128)
    ensures LoadThrough([], m, [32]) == Some(Loaded([0], [Clear(32)], m))
    ensures LoadThrough([Clear(32)], m, [0]) == Some(Loaded([0], [Clear(0), Clear(32)], m))
  {
    IncomingIsClear(m, 32);
    IncomingIsClear(m, 0);
    MissedByte([], m, 32);
    assert Find([Clear(32)], 0) == 1;
    MissedByte([Clear(32)], m, 0);
    hide LoadThrough, Coherence.Incoming, Clear, Zeros;
    assert Push([], NUMBER_OF_LINES, Clear(32)) == [Clear(32)];
    assert Push([Clear(32)], NUMBER_OF_LINES, Clear(0)) == [Clear(0), Clear(32)];
  }

  lemma OverlapLoads(app: App, orders: nat -> seq<Word>, m: Memory)
    requires app == OverlapProgram() && m == Zeros(128)
    ensures Reach(app, orders, m, 2, Cached(map[5 := 0], 8, [Clear(0), Clear(32)], m), Flat(map[5 := 0], 8, m))
  {
    hide Reach, LoadThrough, Clear, OverlapProgram, LoadByte, StoreByte;
    var none: Regs := map[];
    ReachStart(app, orders, m);
    OverlapCode(app);
    OverlapMisses(m);
    ReachLoad(app, orders, m, 0, Cached(none, 0, [], m), Flat(none, 0, m), 5, 32, Loaded([0], [Clear(32)], m));
    assert none[5 := 0] == map[5 := 0] && none[5 := 0][5 := 0] == map[5 := 0];
    ReachLoad(app, orders, m, 1, Cached(map[5 := 0], 4, [Clear(32)], m), Flat(map[5 := 0], 4, m), 5, 0,
              Loaded([0], [Clear(0), Clear(32)], m));
  }

  lemma OverlapLines(dirty: Line)
    requires dirty == Stored()
    ensures var lines := [Clear(0), Clear(32)];
            && Find(lines, 40) == 0 && ToFront(lines, 0) == lines && WriteTo(lines, 40, [1]) == Some([dirty, Clear(32)])
    ensures LoadThrough([dirty, Clear(32)], Zeros(128), [80]) == Some(Loaded([0], [Clear(32), dirty], Zeros(128)))
    ensures LoadThrough([Clear(32), dirty], Zeros(128), [40]) == Some(Loaded([0], [Clear(32), dirty], Zeros(128)))
  {
    OverlappingWrite([Clear(0), Clear(32)], dirty);
    assert ToFront([Clear(0), Clear(32)], 0) == [Clear(0), Clear(32)];
    var lines, m := [dirty, Clear(32)], Zeros(128);
    assert Find(lines, 80) == 1 && ToFront(lines, 1) == [Clear(32), dirty];
    HitByte(lines, m, 80);
    assert Find([Clear(32), dirty], 40) == 0 && ToFront([Clear(32), dirty], 0) == [Clear(32), dirty];
    HitByte([Clear(32), dirty], m, 40);
    hide LoadThrough;
  }

  lemma OverlapStores(app: App, orders: nat -> seq<Word>, m: Memory, dirty: Line)
    requires app == OverlapProgram() && m == Zeros(128) && dirty == Stored()
    ensures Reach(app, orders, m, 4, Cached(map[5 := 0, 6 := 1], 16, [dirty, Clear(32)], m),
                  Flat(map[5 := 0, 6 := 1], 16, m[40 := 1]))
  {
    hide Reach, LoadThrough, Clear, OverlapProgram, LoadByte, StoreByte, Find, ToFront, WriteTo, Stored;
    OverlapCode(app);
    OverlapLoads(app, orders, m);
    OverlapLines(dirty);
    var regs: Regs := map[5 := 0];
    ReachLi(app, orders, m, 2, Cached(regs, 8, [Clear(0), Clear(32)], m), Flat(regs, 8, m), 6, 1);
    assert regs[6 := 1] == map[5 := 0, 6 := 1];
    ReachStore(app, orders, m, 3, Cached(map[5 := 0, 6 := 1], 12, [Clear(0), Clear(32)], m),
               Flat(map[5 := 0, 6 := 1], 12, m),
               6, 40, 1, [dirty, Clear(32)]);
  }

  /** Two loads whose lines overlap, a store into the front one, and a load that brings the other to the front: the last
      load reads the old byte. */
  lemma OverlapRun(orders: nat -> seq<Word>)
    ensures var c := Reference(Plain, OverlapProgram(), orders, Cached(map[], 0, [], Zeros(128)), 6);
            var f := FlatAfter(Plain, OverlapProgram(), Flat(map[], 0, Zeros(128)), 6);
            c.Some? && f.Some? && Read(c.value.regs, 5) == 0 && Read(f.value.regs, 5) == 1
  {
    hide Reach, LoadThrough, Clear, OverlapProgram, LoadByte, StoreByte, Find, ToFront, WriteTo, Stored, Reference,
         FlatAfter;
    var app, m, dirty := OverlapProgram(), Zeros(128), Stored();
    var regs: Regs := map[5 := 0, 6 := 1];
    OverlapCode(app);
    OverlapStores(app, orders, m, dirty);
    OverlapLines(dirty);
    var m1 := m[40 := 1];
    ReachLoad(app, orders, m, 4, Cached(regs, 16, [dirty, Clear(32)], m), Flat(regs, 16, m1), 5, 80,
              Loaded([0], [Clear(32), dirty], m));
    assert regs[5 := 0] == regs && m1[80] == 0 && m1[40] == 1;
    ReachLoad(app, orders, m, 5, Cached(regs, 20, [Clear(32), dirty], m), Flat(regs, 20, m1), 5, 40,
              Loaded([0], [Clear(32), dirty], m));
    ReachRegs(app, orders, m, 6, Cached(regs, 24, [Clear(32), dirty], m), Flat(regs[5 := 1], 24, m1));
  }

  lemma ReachRegs(app: App, orders: nat -> seq<Word>, memory: Memory, k: nat, c: Cached, f: Flat)
    requires Reach(app, orders, memory, k, c, f)
    ensures Reference(Plain, app, orders, Cached(map[], 0, [], memory), k) == Some(c)
    ensures FlatAfter(Plain, app, Flat(map[], 0, memory), k) == Some(f)
  {
    hide Reference, FlatAfter;
  }

  // ---------------------------------------------------------------- a line fetched over a stored byte

  function WindowProgram(): App {
    App([LoadByte(5, 32), Li(6, 1), StoreByte(6, 40), LoadByte(5, 0), LoadByte(5, 40)], map[])
  }

  /** The first line after the store. */
  function Written(): Line { Overwrite(Clear(32), 40, [1]) }

  lemma WindowCode(app: App)
    requires app == WindowProgram()
    ensures |app.code| == 5 && app.code[0] == LoadByte(5, 32) && app.code[1] == Li(6, 1)
            && app.code[2] == StoreByte(6, 40)
    ensures app.code[3] == LoadByte(5, 0) && app.code[4] == LoadByte(5, 40)
  {
  }

  lemma WindowLines(m: Memory)
    requires m == Zeros(128)
    ensures LoadThrough([], m, [32]) == Some(Loaded([0], [Clear(32)], m))
    ensures Find([Clear(32)], 40) == 0 && WriteTo(ToFront([Clear(32)], 0), 40, [1]) == Some([Written()])
  {
    OverlapMisses(m);
    assert ToFront([Clear(32)], 0) == [Clear(32)];
    assert [Clear(32)][0 := Written()] == [Written()];
    hide LoadThrough, Overwrite;
  }

  lemma WindowMisses(m: Memory)
    requires m == Zeros(128)
    ensures LoadThrough([Written()], m, [0]) == Some(Loaded([0], [Clear(0), Written()], m))
    ensures LoadThrough([Clear(0), Written()], m, [40]) == Some(Loaded([0], [Clear(0), Written()], m))
  {
    IncomingIsClear(m, 0);
    assert Find([Written()], 0) == 1;
    MissedByte([Written()], m, 0);
    var lines := [Clear(0), Written()];
    assert Find(lines, 40) == 0 && ToFront(lines, 0) == lines;
    HitByte(lines, m, 40);
    hide LoadThrough, Coherence.Incoming;
    assert Push([Written()], NUMBER_OF_LINES, Clear(0)) == lines;
  }

  /** A line fetched from memory over a byte that only the L1D holds goes to the front and hides it. */
  lemma WindowRun(orders: nat -> seq<Word>)
    ensures var c := Reference(Plain, WindowProgram(), orders, Cached(map[], 0, [], Zeros(128)), 5);
            var f := FlatAfter(Plain, WindowProgram(), Flat(map[], 0, Zeros(128)), 5);
            c.Some? && f.Some? && Read(c.value.regs, 5) == 0 && Read(f.value.regs, 5) == 1
  {
    hide Reach, LoadThrough, Clear, WindowProgram, LoadByte, StoreByte, Find, ToFront, WriteTo, Written, Reference,
         FlatAfter, Zeros;
    var app, m := WindowProgram(), Zeros(128);
    var none: Regs, regs: Regs := map[], map[5 := 0, 6 := 1];
    WindowCode(app);
    WindowLines(m);
    WindowMisses(m);
    ReachStart(app, orders, m);
    ReachLoad(app, orders, m, 0, Cached(none, 0, [], m), Flat(none, 0, m), 5, 32, Loaded([0], [Clear(32)], m));
    ReachLi(app, orders, m, 1, Cached(none[5 := 0], 4, [Clear(32)], m), Flat(none[5 := 0], 4, m), 6, 1);
    assert none[5 := 0][6 := 1] == regs && regs[5 := 0] == regs;
    ReachStore(app, orders, m, 2, Cached(regs, 8, [Clear(32)], m), Flat(regs, 8, m), 6, 40, 1, [Written()]);
    var m1, lines := m[40 := 1], [Clear(0), Written()];
    ReachLoad(app, orders, m, 3, Cached(regs, 12, [Written()], m), Flat(regs, 12, m1), 5, 0, Loaded([0], lines, m));
    ReachLoad(app, orders, m, 4, Cached(regs, 16, lines, m), Flat(regs, 16, m1), 5, 40, Loaded([0], lines, m));
    ReachRegs(app, orders, m, 5, Cached(regs, 20, lines, m), Flat(regs[5 := 1], 20, m1));
  }

  // ---------------------------------------------------------------- the byte that falls out

  /** A store of 1 to 960, fifteen more lines, a seventeenth, and a load of 960. */
  function VictimProgram(): App { App(seq(20, k requires 0 <= k < 20 => VictimInstr(k)), map[]) }

  function VictimInstr(k: nat): Instr
    requires k < 20
  {
    if k == 0 || k == 19 then LoadByte(5, 960) else
    if k == 1 then Li(6, 1) else
    if k == 2 then StoreByte(6, 960) else
    if k == 18 then LoadByte(5, 1024) else LoadByte(5, 64 * (17 - k))
  }

  function Dirty(): Line { Line(960, 1024, [1] + Zeros(63)) }

  /** The lines after j of the fifteen loads, the last one in front. */
  function Filled(j: nat): (lines: seq<Line>)
    requires j <= 15
    ensures |lines| == j + 1 && lines[j] == Dirty()
    ensures forall i :: 0 <= i < j ==> lines[i] == Clear(64 * (15 - j + i))
  {
    if j == 0 then [Dirty()] else [Clear(64 * (15 - j))] + Filled(j - 1)
  }

  lemma FilledIsDirtyCache()
    ensures Filled(15) == DirtyCache()
  {
  }

  lemma FilledMisses(j: nat, m: Memory)
    requires j < 15 && m == Zeros(2048)
    ensures LoadThrough(Filled(j), m, [64 * (14 - j)]) == Some(Loaded([0], Filled(j + 1), m))
  {
    var a: Word := 64 * (14 - j);
    forall i | 0 <= i < |Filled(j)| ensures !Covers(Filled(j)[i], a) {
      if i < j { assert Filled(j)[i] == Clear(64 * (15 - j + i)); }
    }
    NotFound(Filled(j), a);
    IncomingIsClear(m, a);
    MissedByte(Filled(j), m, a);
    hide LoadThrough, Coherence.Incoming;
    assert Push(Filled(j), NUMBER_OF_LINES, Clear(a)) == Filled(j + 1);
  }

  lemma VictimStart(app: App, orders: nat -> seq<Word>, m: Memory)
    requires app == VictimProgram() && m == Zeros(2048)
    ensures Reach(app, orders, m, 3, Cached(map[5 := 0, 6 := 1], 12, Filled(0), m),
                  Flat(map[5 := 0, 6 := 1], 12, m[960 := 1]))
  {
    hide Reach, LoadThrough, LoadByte, StoreByte, VictimProgram, Find, ToFront, WriteTo, Zeros, Clear, Filled;
    VictimCode(app);
    FirstLine(m);
    var none: Regs := map[];
    ReachStart(app, orders, m);
    ReachLoad(app, orders, m, 0, Cached(none, 0, [], m), Flat(none, 0, m), 5, 960, Loaded([0], [Clear(960)], m));
    var regs := none[5 := 0];
    ReachLi(app, orders, m, 1, Cached(regs, 4, [Clear(960)], m), Flat(regs, 4, m), 6, 1);
    assert regs[6 := 1] == map[5 := 0, 6 := 1];
    ReachStore(app, orders, m, 2, Cached(map[5 := 0, 6 := 1], 8, [Clear(960)], m), Flat(map[5 := 0, 6 := 1], 8, m), 6,
               960, 1, Filled(0));
  }

  lemma VictimCode(app: App)
    requires app == VictimProgram()
    ensures |app.code| == 20 && app.code[0] == LoadByte(5, 960) && app.code[1] == Li(6, 1)
            && app.code[2] == StoreByte(6, 960)
    ensures app.code[18] == LoadByte(5, 1024) && app.code[19] == LoadByte(5, 960)
    ensures forall k :: 3 <= k < 18 ==> app.code[k] == LoadByte(5, 64 * (17 - k))
  {
    hide LoadByte, StoreByte;
  }

  lemma FirstLine(m: Memory)
    requires m == Zeros(2048)
    ensures LoadThrough([], m, [960]) == Some(Loaded([0], [Clear(960)], m))
    ensures Find([Clear(960)], 960) == 0 && WriteTo(ToFront([Clear(960)], 0), 960, [1]) == Some(Filled(0))
  {
    IncomingIsClear(m, 960);
    MissedByte([], m, 960);
    assert Push([], NUMBER_OF_LINES, Clear(960)) == [Clear(960)];
    assert ToFront([Clear(960)], 0) == [Clear(960)];
    assert Overwrite(Clear(960), 960, [1]) == Dirty() by {
      assert Zeros(64)[..0] + [1] + Zeros(64)[1..] == [1] + Zeros(63);
    }
    assert [Clear(960)][0 := Dirty()] == [Dirty()] == Filled(0);
    hide LoadThrough, Coherence.Incoming, Overwrite;
  }

  lemma {:induction false} VictimFills(app: App, orders: nat -> seq<Word>, m: Memory, j: nat)
    requires app == VictimProgram() && m == Zeros(2048) && j <= 15
    ensures Reach(app, orders, m, 3 + j, Cached(map[5 := 0, 6 := 1], 4 * (3 + j), Filled(j), m),
                  Flat(map[5 := 0, 6 := 1], 4 * (3 + j), m[960 := 1]))
  {
    hide Reach, LoadThrough, LoadByte, VictimProgram, Zeros, Filled;
    if j == 0 {
      VictimStart(app, orders, m);
    } else {
      VictimFills(app, orders, m, j - 1);
      VictimCode(app);
      FilledMisses(j - 1, m);
      var regs: Regs, a: Word := map[5 := 0, 6 := 1], 64 * (15 - j);
      ReachLoad(app, orders, m, 2 + j, Cached(regs, 4 * (2 + j), Filled(j - 1), m),
                Flat(regs, 4 * (2 + j), m[960 := 1]), 5, a,
                Loaded([0], Filled(j), m));
      assert regs[5 := 0] == regs;
    }
  }

  /** The line with the 1 falls out of the full L1D, the fetched line is written to memory in its stead, and the last
      load reads 0. */
  lemma VictimRun(orders: nat -> seq<Word>)
    ensures var c := Reference(Plain, VictimProgram(), orders, Cached(map[], 0, [], Zeros(2048)), 20);
            var f := FlatAfter(Plain, VictimProgram(), Flat(map[], 0, Zeros(2048)), 20);
            c.Some? && f.Some? && Read(c.value.regs, 5) == 0 && Read(f.value.regs, 5) == 1
  {
    hide Reach, LoadThrough, LoadByte, VictimProgram, Filled, DirtyCache, Push, Coherence.Incoming, Reference,
         FlatAfter, Find, Zeros;
    var app, m := VictimProgram(), Zeros(2048);
    VictimFills(app, orders, m, 15);
    VictimCode(app);
    FilledIsDirtyCache();
    DirtyCacheIsFull();
    MissedByte(DirtyCache(), m, 1024);
    var lines := Push(DirtyCache(), NUMBER_OF_LINES, Coherence.Incoming(m, 1024));
    MissedByte(lines, m, 960);
    var lines1 := Push(lines, NUMBER_OF_LINES, Coherence.Incoming(m, 960));
    var regs: Regs, m1 := map[5 := 0, 6 := 1], m[960 := 1];
    ReachLoad(app, orders, m, 18, Cached(regs, 72, DirtyCache(), m), Flat(regs, 72, m1), 5, 1024,
              Loaded([0], lines, m));
    assert regs[5 := 0] == regs;
    ReachLoad(app, orders, m, 19, Cached(regs, 76, lines, m), Flat(regs, 76, m1), 5, 960, Loaded([0], lines1, m));
    ReachRegs(app, orders, m, 20, Cached(regs, 80, lines1, m), Flat(regs[5 := 1], 80, m1));
  }

  // ---------------------------------------------------------------- a store behind the end of memory

  function OutsideProgram(): App { App([LoadByte(5, 0), StoreByte(ZERO, 10), Ret], map[]) }

  lemma OutsideCode(app: App)
    requires app == OutsideProgram()
    ensures |app.code| == 3 && app.code[0] == LoadByte(5, 0) && app.code[1] == StoreByte(ZERO, 10) && app.code[2] == Ret
  {
  }

  lemma OutsideLines()
    ensures LoadThrough([], [0], [0]) == Some(Loaded([0], [Clear(0)], [0]))
    ensures Find([Clear(0)], 10) == 0 && ToFront([Clear(0)], 0) == [Clear(0)]
            && WriteTo([Clear(0)], 10, [0]) == Some([Clear(0)])
  {
    IncomingIsClear([0], 0);
    MissedByte([], [0], 0);
    assert Push([], NUMBER_OF_LINES, Clear(0)) == [Clear(0)];
    assert ToFront([Clear(0)], 0) == [Clear(0)];
    assert Overwrite(Clear(0), 10, [0]) == Clear(0) by { assert Zeros(64)[..10] + [0] + Zeros(64)[11..] == Zeros(64); }
    assert [Clear(0)][0 := Clear(0)] == [Clear(0)];
    hide LoadThrough, Coherence.Incoming, Overwrite;
  }

  /** One byte of memory, and a store to address 10: MVP-1 panics, MVP-3 has the tail of a line there and returns. */
  lemma OutsideRun(orders: nat -> seq<Word>)
    ensures var f := FlatAfter(Plain, OutsideProgram(), Flat(map[], 0, [0]), 1);
            f.Some? && Step(Plain, OutsideProgram(), f.value) == FlatStop(Error(BadAddress))
    ensures var c := Reference(Plain, OutsideProgram(), orders, Cached(map[], 0, [], [0]), 2);
            c.Some? && StepCached(Plain, OutsideProgram(), orders(2), c.value) == CachedStop(Return)
  {
    hide Reach, LoadThrough, LoadByte, StoreByte, OutsideProgram, Find, ToFront, WriteTo, Clear, Reference, FlatAfter,
         Step, StepCached;
    var app, none: Regs := OutsideProgram(), map[];
    OutsideCode(app);
    OutsideLines();
    ReachStart(app, orders, [0]);
    ReachLoad(app, orders, [0], 0, Cached(none, 0, [], [0]), Flat(none, 0, [0]), 5, 0, Loaded([0], [Clear(0)], [0]));
    var c, f := Cached(none[5 := 0], 4, [Clear(0)], [0]), Flat(none[5 := 0], 4, [0]);
    ReachRegs(app, orders, [0], 1, c, f);
    StoreSteps(app, orders(1), c, f, ZERO, 10, 0);
    var c1 := c.(pc := 8);
    OneMoreStep(app, orders, Cached(none, 0, [], [0]), 1, c, c1);
    ReturnStops(app, orders(2), c1);
  }

  lemma OneMoreStep(app: App, orders: nat -> seq<Word>, start: Cached, k: nat, c: Cached, c1: Cached)
    requires Reference(Plain, app, orders, start, k) == Some(c)
             && StepCached(Plain, app, orders(k), c) == CachedNext(c1)
    ensures Reference(Plain, app, orders, start, k + 1) == Some(c1)
  {
    hide StepCached;
  }

  lemma ReturnStops(app: App, order: seq<Word>, c: Cached)
    requires 0 <= Index(c.pc) < |app.code| && app.code[Index(c.pc)] == Ret
    ensures StepCached(Plain, app, order, c) == CachedStop(Return)
  {
  }
}
