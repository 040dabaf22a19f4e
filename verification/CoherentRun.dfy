/** Whole runs of MVP-3 behind its L1D against whole runs of MVP-1 on flat memory. */
module CoherentRun {
  import opened Words
  import opened Isa
  import opened Cache
  import opened Mmu
  import opened Sequential
  import opened Coherence
  import opened Faults

  ghost predicate LoadSafe(lines: seq<Line>, memory: Memory, flat: Memory, addrs: seq<Word>)
    requires |memory| == |flat| && addrs != [] && addrs[0] >= 0
  {
    var (hit, lines1) := GetAll(lines, addrs);
    hit.Some? || (WindowClean(memory, flat, addrs[0]) && VictimClean(lines1, memory, flat, addrs[0]))
  }

  ghost predicate StoreSafe(lines: seq<Line>, order: seq<Word>, e: Execution) {
    var (hit, lines1) := LookUp(lines, order, e);
    if hit.Some? then WriteTo(lines1, e.address, e.data).Some?
      && OthersHold(lines1, Find(lines1, e.address), e.address, e.data)
    else AllHold(lines1, e.address, e.data)
  }

  lemma LoadAgrees(lines: seq<Line>, memory: Memory, flat: Memory, i: Instr, regs: Regs)
    requires Coherent(lines, memory, flat)
    requires var addrs := MemoryRead(i, NO_FORWARD, regs); addrs != [] && InRange(flat, addrs)
    ensures var addrs := MemoryRead(i, NO_FORWARD, regs);
            var l := LoadThrough(lines, memory, addrs);
            && l.Some? && |l.value.bytes| == |addrs|
            && (Coherent(l.value.lines, l.value.memory, flat) <==> LoadSafe(lines, memory, flat, addrs))
            && (LoadSafe(lines, memory, flat, addrs) ==> l.value.bytes == BytesAt(flat, addrs))
  {
    var addrs := MemoryRead(i, NO_FORWARD, regs);
    var (hit, lines1) := GetAll(lines, addrs);
    GetAllPermutes(lines, addrs);
    SameLinesSameView(lines, lines1, memory, flat);
    if hit.Some? {
      LoadedBytesAreFlat(lines, memory, flat, addrs);
    } else {
      MissAgrees(lines1, memory, flat, i, regs);
    }
  }

  lemma MissAgrees(lines: seq<Line>, memory: Memory, flat: Memory, i: Instr, regs: Regs)
    requires Coherent(lines, memory, flat)
    requires var addrs := MemoryRead(i, NO_FORWARD, regs); addrs != [] && InRange(flat, addrs)
    ensures var addrs := MemoryRead(i, NO_FORWARD, regs);
            var l := LoadMiss(lines, memory, addrs);
            var safe := WindowClean(memory, flat, addrs[0]) && VictimClean(lines, memory, flat, addrs[0]);
            && l.Some? && |l.value.bytes| == |addrs|
            && (Coherent(l.value.lines, l.value.memory, flat) <==> safe)
            && (safe ==> l.value.bytes == BytesAt(flat, addrs))
  {
    var addrs := MemoryRead(i, NO_FORWARD, regs);
    var lines1 := Push(lines, NUMBER_OF_LINES, Incoming(memory, addrs[0]));
    WritingBackIncomingIsIdle(memory, addrs[0]);
    MissIsCoherent(lines, memory, flat, addrs[0]);
    MissedLoadHits(lines, memory, i, regs);
    GetAllPermutes(lines1, addrs);
    SameLinesSameView(lines1, GetAll(lines1, addrs).1, memory, flat);
    if Coherent(lines1, memory, flat) { LoadedBytesAreFlat(lines1, memory, flat, addrs); }
  }

  lemma StoreAgrees(lines: seq<Line>, memory: Memory, flat: Memory, order: seq<Word>, e: Execution)
    requires Coherent(lines, memory, flat) && e.data != [] && WriteMemory(flat, e.address, e.data).Some?
    ensures var st := StoreThrough(lines, memory, order, e);
            StoreSafe(lines, order, e)
            <==> st.Some? && Coherent(st.value.lines, st.value.memory, WriteTruncated(flat, e.address, e.data))
  {
    var (hit, lines1) := LookUp(lines, order, e);
    GetAllPermutes(lines, Arrange(order, Addresses(e.address, |e.data|)));
    SameLinesSameView(lines, lines1, memory, flat);
    if hit.Some? {
      if WriteTo(lines1, e.address, e.data).Some? { HitIsCoherent(lines1, memory, flat, e.address, e.data); }
    } else {
      BypassIsCoherent(lines1, memory, flat, e.address, e.data);
    }
  }

  // ---------------------------------------------------------------- one step

  /** The cached core stands where the flat core stands, and its cache is coherent. */
  ghost predicate Tracks(c: Cached, f: Flat) {
    c.regs == f.regs && c.pc == f.pc && Coherent(c.lines, c.memory, f.memory)
  }

  ghost predicate Safe(app: App, order: seq<Word>, c: Cached, f: Flat)
    requires |c.memory| == |f.memory|
  {
    0 <= Index(c.pc) < |app.code| ==>
      var i := app.code[Index(c.pc)];
      var addrs := MemoryRead(i, NO_FORWARD, c.regs);
      && (addrs != [] && addrs[0] >= 0 ==> LoadSafe(c.lines, c.memory, f.memory, addrs))
      && (i.Store? ==> match Run(i, NO_FORWARD, c.regs, app.labels, c.pc, [])
                       case Ok(e) => StoreSafe(c.lines, order, e)
                       case Fail(_) => true)
  }

  /** What one step of the cached core must show: the same stop exactly when it shares it, or a state that tracks
      exactly when the step is safe. */
  ghost predicate StepAgrees(app: App, order: seq<Word>, c: Cached, f: Flat, cs: CachedStep, fs: FlatStep)
    requires |c.memory| == |f.memory|
  {
    match fs
    case FlatStop(stop) => if Shares(app, order, c, stop) then cs == CachedStop(stop) else cs.CachedNext?
    case FlatNext(f1) => Safe(app, order, c, f) <==> cs.CachedNext? && Tracks(cs.next, f1)
  }

  lemma LoadStep(mode: WriteBack, app: App, order: seq<Word>, c: Cached, f: Flat, i: Instr)
    requires Tracks(c, f) && 0 <= Index(c.pc) < |app.code| && i == app.code[Index(c.pc)] && i.Load?
    requires Step(mode, app, f) != FlatStop(Error(BadAddress))
    ensures StepAgrees(app, order, c, f, StepCached(mode, app, order, c), Step(mode, app, f))
  {
    LoadAgrees(c.lines, c.memory, f.memory, i, c.regs);
    var addrs := MemoryRead(i, NO_FORWARD, c.regs);
    var l := LoadThrough(c.lines, c.memory, addrs).value;
    assert StepCached(mode, app, order, c) == Finish(mode, app, order, c, i, l);
    assert Run(i, NO_FORWARD, c.regs, app.labels, c.pc, l.bytes).Ok?;
    assert Run(i, NO_FORWARD, c.regs, app.labels, c.pc, BytesAt(f.memory, addrs)).Ok?;
  }

  lemma StoreStep(mode: WriteBack, app: App, order: seq<Word>, c: Cached, f: Flat, i: Instr)
    requires Tracks(c, f) && 0 <= Index(c.pc) < |app.code| && i == app.code[Index(c.pc)] && i.Store?
    requires Step(mode, app, f) != FlatStop(Error(BadAddress))
    ensures StepAgrees(app, order, c, f, StepCached(mode, app, order, c), Step(mode, app, f))
  {
    var e := StoreExecution(app, c.pc, c.regs, i);
    StoreOnFlat(mode, app, f, i);
    StoreOnCached(mode, app, order, c, i);
    hide Step, StepCached, Coherent, StoreThrough, StoreSafe, Run;
    StoreAgrees(c.lines, c.memory, f.memory, order, e);
  }

  lemma PlainStep(mode: WriteBack, app: App, order: seq<Word>, c: Cached, f: Flat, i: Instr)
    requires Tracks(c, f) && 0 <= Index(c.pc) < |app.code| && i == app.code[Index(c.pc)] && !i.Store? && !i.Load?
    ensures StepAgrees(app, order, c, f, StepCached(mode, app, order, c), Step(mode, app, f))
  {
    assert BytesAt(f.memory, []) == [];
    assert StepCached(mode, app, order, c) == Finish(mode, app, order, c, i, Loaded([], c.lines, c.memory));
  }

  /** Exactly when one step of MVP-3 looks like one step of MVP-1 on flat memory. */
  lemma CachedStepAgrees(mode: WriteBack, app: App, order: seq<Word>, c: Cached, f: Flat)
    requires Tracks(c, f)
    ensures StepAgrees(app, order, c, f, StepCached(mode, app, order, c), Step(mode, app, f))
  {
    if Step(mode, app, f) == FlatStop(Error(BadAddress)) {
      FaultIsShared(mode, app, order, c, f);
    } else if 0 <= Index(c.pc) < |app.code| {
      var i := app.code[Index(c.pc)];
      if i.Load? { LoadStep(mode, app, order, c, f, i); }
      else if i.Store? { StoreStep(mode, app, order, c, f, i); }
      else { PlainStep(mode, app, order, c, f, i); }
    }
  }

  // ---------------------------------------------------------------- whole runs

  ghost predicate TracksAt(mode: WriteBack, app: App, orders: nat -> seq<Word>, c: Cached, f: Flat, k: nat) {
    var ck, fk := Reference(mode, app, orders, c, k), FlatAfter(mode, app, f, k);
    ck.Some? && fk.Some? && Tracks(ck.value, fk.value)
  }

  ghost predicate SafeAt(mode: WriteBack, app: App, orders: nat -> seq<Word>, c: Cached, f: Flat, k: nat) {
    var ck, fk := Reference(mode, app, orders, c, k), FlatAfter(mode, app, f, k);
    ck.Some? && fk.Some? && |ck.value.memory| == |fk.value.memory| && Safe(app, orders(k), ck.value, fk.value)
  }

  lemma TracksNext(mode: WriteBack, app: App, orders: nat -> seq<Word>, c: Cached, f: Flat, k: nat)
    requires TracksAt(mode, app, orders, c, f, k) && FlatAfter(mode, app, f, k + 1).Some?
    ensures TracksAt(mode, app, orders, c, f, k + 1) <==> SafeAt(mode, app, orders, c, f, k)
  {
    var ck, fk := Reference(mode, app, orders, c, k).value, FlatAfter(mode, app, f, k).value;
    CachedStepAgrees(mode, app, orders(k), ck, fk);
    hide Step, StepCached, Safe, Coherent;
  }

  /** The caches are coherent all along a run exactly when every step of it is safe. */
  lemma {:induction false} CachedRunAgrees(mode: WriteBack, app: App, orders: nat -> seq<Word>, c: Cached, f: Flat,
                                           n: nat)
    requires Tracks(c, f) && FlatAfter(mode, app, f, n).Some?
    ensures (forall k: nat :: k <= n ==> TracksAt(mode, app, orders, c, f, k))
       <==> (forall k: nat :: k < n ==> SafeAt(mode, app, orders, c, f, k))
  {
    hide Step, StepCached, Tracks, SafeAt;
    if n > 0 {
      CachedRunAgrees(mode, app, orders, c, f, n - 1);
      if TracksAt(mode, app, orders, c, f, n - 1) { TracksNext(mode, app, orders, c, f, n - 1); }
    }
  }

  // ---------------------------------------------------------------- programs that only load

  ghost predicate LoadsOnly(app: App) { forall k :: 0 <= k < |app.code| ==> !app.code[k].Store? }

  /** Without stores memory never changes, so no copy can be stale: overlapping lines and evictions do no harm. */
  lemma LoadsAreSafe(app: App, order: seq<Word>, c: Cached, f: Flat)
    requires LoadsOnly(app) && Tracks(c, f) && c.memory == f.memory
    ensures Safe(app, order, c, f)
  {
  }

  lemma FetchKeepsMemory(lines: seq<Line>, memory: Memory, addrs: seq<Word>)
    ensures var l := FetchOperands(lines, memory, addrs); l.Some? ==> l.value.memory == memory
  {
    if addrs != [] && addrs[0] >= 0 { WritingBackIncomingIsIdle(memory, addrs[0]); }
  }

  lemma LoadsKeepMemory(mode: WriteBack, app: App, order: seq<Word>, c: Cached)
    requires LoadsOnly(app) && StepCached(mode, app, order, c).CachedNext?
    ensures StepCached(mode, app, order, c).next.memory == c.memory
  {
    hide FetchOperands, StoreThrough;
    FetchKeepsMemory(c.lines, c.memory, MemoryRead(app.code[Index(c.pc)], NO_FORWARD, c.regs));
  }

  lemma LoadsKeepFlatMemory(mode: WriteBack, app: App, f: Flat)
    requires LoadsOnly(app) && Step(mode, app, f).FlatNext?
    ensures Step(mode, app, f).next.memory == f.memory
  {
    var i := app.code[Index(f.pc)];
  }

  /** A program that only loads runs on MVP-3 as on MVP-1, to the same end, from an empty cache. */
  lemma {:induction false} LoadOnlyRunsAgree(mode: WriteBack, app: App, orders: nat -> seq<Word>, start: Flat, n: nat)
    requires LoadsOnly(app) && |start.memory| <= 0x8000_0000 - LINE_LENGTH
    requires FlatAfter(mode, app, start, n).Some?
    ensures var c := Reference(mode, app, orders, Cached(start.regs, start.pc, [], start.memory), n);
            var f := FlatAfter(mode, app, start, n).value;
            && c.Some? && c.value.memory == f.memory == start.memory && Tracks(c.value, f)
            && (Step(mode, app, f).FlatStop? ==>
                  StepAgrees(app, orders(n), c.value, f, StepCached(mode, app, orders(n), c.value), Step(mode, app, f)))
  {
    var c0 := Cached(start.regs, start.pc, [], start.memory);
    if n > 0 {
      LoadOnlyRunsAgree(mode, app, orders, start, n - 1);
      var c, f := Reference(mode, app, orders, c0, n - 1).value, FlatAfter(mode, app, start, n - 1).value;
      LoadsAreSafe(app, orders(n - 1), c, f);
      LoadsKeepFlatMemory(mode, app, f);
      CachedStepAgrees(mode, app, orders(n - 1), c, f);
      LoadsKeepMemory(mode, app, orders(n - 1), c);
    }
    hide Step, StepCached, Coherent;
    var c, f := Reference(mode, app, orders, c0, n).value, FlatAfter(mode, app, start, n).value;
    CachedStepAgrees(mode, app, orders(n), c, f);
  }

  // ---------------------------------------------------------------- the final write-back

  /** Front to back, the last line with a copy of the byte decides. */
  function LastCopy(lines: seq<Line>, a: Word, b: Byte): Byte {
    if lines == [] then b
    else LastCopy(lines[1..], a, if lines[0].lo <= a < lines[0].lo + |lines[0].data| then
                    lines[0].data[a - lines[0].lo] else b)
  }

  /** What a flush of the L1D leaves in memory, whatever the lines. */
  lemma {:induction false} FlushedByte(lines: seq<Line>, memory: Memory, a: Word)
    requires 0 <= a < |memory|
    ensures Flushed(lines, memory)[a] == LastCopy(lines, a, memory[a])
  {
    if lines != [] {
      FlushedByte(lines[1..], WriteTruncated(memory, lines[0].lo, lines[0].data), a);
    }
  }

  /** A flush of a coherent cache puts memory into the state of the flat core. */
  lemma {:induction false} FlushPublishes(lines: seq<Line>, memory: Memory, flat: Memory)
    requires Coherent(lines, memory, flat)
    ensures Flushed(lines, memory) == flat
  {
    if lines == [] {
      assert forall a: Word :: !Resident(lines, a);
    } else {
      var l := lines[0];
      assert l in lines;
      var memory1 := WriteTruncated(memory, l.lo, l.data);
      forall a: Word | 0 <= a < |flat| && !Resident(lines[1..], a) ensures memory1[a] == flat[a] {
        if Covers(l, a) { assert At(l, a) == flat[a]; } else { assert !Resident(lines, a); }
      }
      FlushPublishes(lines[1..], memory1, flat);
    }
  }

  lemma {:induction false} OnlyCopyDecides(lines: seq<Line>, memory: Memory, k: nat, a: Word)
    requires 0 <= a < |memory| && k < |lines| && Covers(lines[k], a)
    requires forall j :: 0 <= j < |lines| && j != k ==> !(lines[j].lo <= a < lines[j].lo + |lines[j].data|)
    ensures Flushed(lines, memory)[a] == At(lines[k], a)
  {
    FlushedByte(lines, memory, a);
    LastIs(lines, k, a, memory[a]);
  }

  lemma {:induction false} LastIs(lines: seq<Line>, k: nat, a: Word, b: Byte)
    requires k < |lines| && Covers(lines[k], a)
    requires forall j :: 0 <= j < |lines| && j != k ==> !(lines[j].lo <= a < lines[j].lo + |lines[j].data|)
    ensures LastCopy(lines, a, b) == At(lines[k], a)
    decreases |lines|
  {
    if k > 0 {
      LastIs(lines[1..], k - 1, a, b);
    } else {
      NoneAfter(lines[1..], a, At(lines[0], a));
    }
  }

  lemma {:induction false} NoneAfter(lines: seq<Line>, a: Word, b: Byte)
    requires forall j :: 0 <= j < |lines| ==> !(lines[j].lo <= a < lines[j].lo + |lines[j].data|)
    ensures LastCopy(lines, a, b) == b
  {
    if lines != [] { NoneAfter(lines[1..], a, b); }
  }

  /** With disjoint lines, whatever else they hold: after a flush a byte is its line's if it has one, and untouched
      otherwise. */
  lemma DisjointFlush(lines: seq<Line>, memory: Memory, a: Word)
    requires Disjoint(lines) && (forall k :: 0 <= k < |lines| ==> Shaped(lines[k]))
             && |memory| <= 0x8000_0000 - LINE_LENGTH
    requires 0 <= a < |memory|
    ensures Flushed(lines, memory)[a] == if Find(lines, a) < |lines| then At(lines[Find(lines, a)], a) else memory[a]
  {
    forall j | 0 <= j < |lines| ensures lines[j].lo <= a < lines[j].lo + |lines[j].data| <==> Covers(lines[j], a) {
      assert Shaped(lines[j]);
    }
    var i := Find(lines, a);
    if i < |lines| {
      OnlyCopyDecides(lines, memory, i, a);
    } else {
      FlushedByte(lines, memory, a);
      NoneAfter(lines, a, memory[a]);
    }
  }

  // ---------------------------------------------------------------- stores that are always safe

  ghost predicate Disjoint(lines: seq<Line>) {
    forall i, j, a: Word :: 0 <= i < |lines| && 0 <= j < |lines| && Covers(lines[i], a) && Covers(lines[j], a) ==>
        i == j
  }

  ghost predicate Inside(l: Line, address: Word, data: seq<Byte>) { l.lo <= address && address + |data| <= l.hi }

  ghost predicate Untouched(lines: seq<Line>, address: Word, data: seq<Byte>) {
    forall a: Word :: Overwrites(a, address, data) ==> !Resident(lines, a)
  }

  lemma PermutedStaysDisjoint(lines: seq<Line>, i: nat)
    requires Disjoint(lines) && i < |lines|
    ensures Disjoint(ToFront(lines, i))
  {
    var at := (k: int) => if k == 0 then i else if k <= i then k - 1 else k;
    assert forall k :: 0 <= k < |lines| ==> ToFront(lines, i)[k] == lines[at(k)];
  }

  lemma {:induction false} LookUpStaysDisjoint(lines: seq<Line>, addrs: seq<Word>)
    requires Disjoint(lines)
    ensures Disjoint(GetAll(lines, addrs).1)
    decreases |addrs|
  {
    if addrs != [] && Find(lines, addrs[0]) < |lines| {
      PermutedStaysDisjoint(lines, Find(lines, addrs[0]));
      LookUpStaysDisjoint(ToFront(lines, Find(lines, addrs[0])), addrs[1..]);
    }
  }

  lemma ArrangedAddress(order: seq<Word>, e: Execution, a: Word)
    requires 0 <= e.address && e.address + |e.data| < 0x8000_0000
    ensures a in Arrange(order, Addresses(e.address, |e.data|)) <==> Overwrites(a, e.address, e.data)
  {
    var addrs := Addresses(e.address, |e.data|);
    assert a in Arrange(order, addrs) <==> a in multiset(Arrange(order, addrs));
    assert a in multiset(addrs) <==> a in addrs;
    if Overwrites(a, e.address, e.data) { assert addrs[a - e.address] == a; }
  }

  /** While resident lines do not overlap, a store inside one of them, or clear of all of them, is safe. */
  lemma AlignedStoreIsSafe(lines: seq<Line>, memory: Memory, flat: Memory, order: seq<Word>, e: Execution)
    requires Coherent(lines, memory, flat) && Disjoint(lines)
    requires e.data != [] && 0 <= e.address && e.address + |e.data| <= |flat|
    requires Untouched(lines, e.address, e.data) || exists l :: l in lines && Inside(l, e.address, e.data)
    ensures StoreSafe(lines, order, e)
  {
    var addrs := Arrange(order, Addresses(e.address, |e.data|));
    var (hit, lines1) := LookUp(lines, order, e);
    GetAllPermutes(lines, addrs);
    ArrangedAddress(order, e, e.address);
    LookUpStaysDisjoint(lines, addrs);
    SameLinesSameView(lines, lines1, memory, flat);
    if l :| l in lines && Inside(l, e.address, e.data) {
      forall k | 0 <= k < |addrs| ensures Resident(lines, addrs[k]) {
        ArrangedAddress(order, e, addrs[k]);
        assert Covers(l, addrs[k]);
      }
      InsideFits(lines1, l, e.address, e.data);
    } else {
      var k :| 0 <= k < |addrs| && addrs[k] == e.address;
      assert !Resident(lines, addrs[k]);
    }
  }

  lemma InsideFits(lines: seq<Line>, l: Line, address: Word, data: seq<Byte>)
    requires Disjoint(lines) && l in lines && Inside(l, address, data) && data != []
    ensures WriteTo(lines, address, data).Some? && OthersHold(lines, Find(lines, address), address, data)
  {
    var i :| 0 <= i < |lines| && lines[i] == l;
    assert Covers(lines[i], address) && Find(lines, address) == i;
    forall j, a: Word | 0 <= j < |lines| && Covers(lines[j], a) && Overwrites(a, address, data) ensures j == i {
      assert Covers(lines[i], a);
    }
  }

  // ---------------------------------------------------------------- and two that are not

  function Zeros(n: nat): (s: seq<Byte>)
    ensures |s| == n && forall k :: 0 <= k < n ==> s[k] == 0
  {
    seq(n, _ => 0)
  }

  function Clear(lo: Word): Line
    requires 0 <= lo < 2048
  {
    Line(lo, lo + 64, Zeros(64))
  }

  /** A full cache whose last line holds the only copy of a 1 at address 960. */
  function DirtyCache(): (lines: seq<Line>) {
    seq(15, k requires 0 <= k < 15 => Clear(64 * k)) + [Line(960, 1024, [1] + Zeros(63))]
  }

  lemma DirtyCacheIsCoherent()
    ensures Coherent(DirtyCache(), Zeros(2048), Zeros(2048)[960 := 1])
  {
    var lines, flat := DirtyCache(), Zeros(2048)[960 := 1];
    forall l | l in lines ensures Shaped(l) {
      var j :| 0 <= j < 16 && lines[j] == l;
    }
    forall l, a: Word | l in lines && Covers(l, a) && 0 <= a < 2048 ensures At(l, a) == flat[a] {
      var j :| 0 <= j < 16 && lines[j] == l;
    }
    assert lines[15] in lines && Covers(lines[15], 960);
  }

  lemma OneAddress(lines: seq<Line>, a: Word)
    requires Find(lines, a) < |lines|
    ensures GetAll(lines, [a]) == (Some([At(lines[Find(lines, a)], a)]), ToFront(lines, Find(lines, a)))
  {
    var i := Find(lines, a);
    var lines1, b := ToFront(lines, i), At(lines[i], a);
    assert [a][1..] == [] && GetAll(lines1, []) == (Some([]), lines1);
    assert [b] + [] == [b];
  }

  lemma HitByte(lines: seq<Line>, memory: Memory, a: Word)
    requires Find(lines, a) < |lines|
    ensures LoadThrough(lines, memory, [a])
         == Some(Loaded([At(lines[Find(lines, a)], a)], ToFront(lines, Find(lines, a)), memory))
  {
    OneAddress(lines, a);
  }

  lemma MissedByte(lines: seq<Line>, memory: Memory, a: Word)
    requires Find(lines, a) == |lines| && 0 <= a < 0x8000_0000 - LINE_LENGTH
    ensures LoadThrough(lines, memory, [a])
         == Some(Loaded([if a < |memory| then memory[a] else 0], Push(lines, NUMBER_OF_LINES, Incoming(memory, a)),
                        memory))
  {
    var line := Incoming(memory, a);
    var lines1 := Push(lines, NUMBER_OF_LINES, line);
    assert GetAll(lines, [a]) == (None, lines);
    WritingBackIncomingIsIdle(memory, a);
    FrontLine(lines, line, a);
    assert At(line, a) == if a < |memory| then memory[a] else 0;
    hide GetAll, Push, FetchLine, WriteTruncated;
  }

  lemma FrontLine(lines: seq<Line>, line: Line, a: Word)
    requires Covers(line, a)
    ensures var lines1 := Push(lines, NUMBER_OF_LINES, line); GetAll(lines1, [a]) == (Some([At(line, a)]), lines1)
  {
    var lines1 := Push(lines, NUMBER_OF_LINES, line);
    assert lines1[0] == line && Find(lines1, a) == 0 && ToFront(lines1, 0) == lines1;
    OneAddress(lines1, a);
    hide GetAll, Push;
  }

  /** The byte that a load of b returns after a load of a. */
  function SecondLoad(lines: seq<Line>, memory: Memory, a: Word, b: Word): Option<seq<Byte>> {
    var l := LoadThrough(lines, memory, [a]);
    if l.None? then None else
      var l1 := LoadThrough(l.value.lines, l.value.memory, [b]);
      if l1.None? then None else Some(l1.value.bytes)
  }

  lemma NotFound(lines: seq<Line>, a: Word)
    requires forall j :: 0 <= j < |lines| ==> !Covers(lines[j], a)
    ensures Find(lines, a) == |lines|
  {
  }

  lemma DirtyCacheIsFull()
    ensures var lines1 := Push(DirtyCache(), NUMBER_OF_LINES, Incoming(Zeros(2048), 1024));
            Find(DirtyCache(), 1024) == |DirtyCache()| && Find(lines1, 960) == |lines1|
  {
    NotFound(DirtyCache(), 1024);
    var line := Incoming(Zeros(2048), 1024);
    DirtyCachePushed(line);
    hide Zeros, Incoming;
    NotFound(Push(DirtyCache(), NUMBER_OF_LINES, line), 960);
  }

  lemma DirtyCachePushed(line: Line)
    requires !Covers(line, 960)
    ensures var lines1 := Push(DirtyCache(), NUMBER_OF_LINES, line);
            forall j :: 0 <= j < |lines1| ==> !Covers(lines1[j], 960)
  {
    var lines1 := Push(DirtyCache(), NUMBER_OF_LINES, line);
    forall j | 0 <= j < |lines1| ensures !Covers(lines1[j], 960) {
      if j > 0 { assert lines1[j] == DirtyCache()[j - 1]; }
    }
  }

  /** One more line, and the 1 is gone: the fetched line is written back in its place. */
  lemma DirtyVictimIsLost()
    ensures Coherent(DirtyCache(), Zeros(2048), Zeros(2048)[960 := 1])
    ensures SecondLoad(DirtyCache(), Zeros(2048), 1024, 960) == Some([0])
  {
    DirtyCacheIsCoherent();
    hide Coherent, LoadThrough, Push, DirtyCache, Incoming;
    var lines, memory := DirtyCache(), Zeros(2048);
    DirtyCacheIsFull();
    MissedByte(lines, memory, 1024);
    MissedByte(Push(lines, NUMBER_OF_LINES, Incoming(memory, 1024)), memory, 960);
  }

  function StoreOne(): Execution { NO_EFFECT.(address := 40, data := [1]) }

  lemma OverlappingStore()
    ensures var lines := [Clear(0), Clear(32)];
            LookUp(lines, [40], StoreOne()) == (Some([0]), lines)
  {
    var lines := [Clear(0), Clear(32)];
    assert Find(lines, 40) == 0 && ToFront(lines, 0) == lines;
    OneAddress(lines, 40);
    assert Addresses(40, 0) == [];
    assert Addresses(40, 1) == [40];
    assert At(Clear(0), 40) == 0;
  }

  lemma OverlappingWrite(lines: seq<Line>, dirty: Line)
    requires lines == [Clear(0), Clear(32)] && dirty == Overwrite(Clear(0), 40, [1])
    ensures WriteTo(lines, 40, [1]) == Some([dirty, Clear(32)]) && Find(lines, 40) == 0
    ensures !OthersHold(lines, 0, 40, [1])
  {
    assert lines[0 := dirty] == [dirty, Clear(32)];
    assert Covers(lines[1], 40) && At(lines[1], 40) == 0 && Overwrites(40, 40, [1]);
  }

  lemma OverlapIsCoherent(lines: seq<Line>)
    requires lines == [Clear(0), Clear(32)]
    ensures Coherent(lines, Zeros(128), Zeros(128))
  {
  }

  /** Two overlapping lines: a store changes one of the copies, and a later load reads the other. */
  lemma OverlapGoesStale()
    ensures var lines, memory := [Clear(0), Clear(32)], Zeros(128);
            && Coherent(lines, memory, memory) && !StoreSafe(lines, [40], StoreOne())
            && (var st := StoreThrough(lines, memory, [40], StoreOne());
                st.Some? && SecondLoad(st.value.lines, memory, 80, 40) == Some([0]))
  {
    var lines := [Clear(0), Clear(32)];
    var dirty := Overwrite(Clear(0), 40, [1]);
    OverlapIsCoherent(lines);
    OverlappingStore();
    OverlappingWrite(lines, dirty);
    StaleCopyIsRead(dirty);
    hide LookUp, Coherent, OthersHold, SecondLoad, WriteTo, Find, Overwrite, Clear, WriteMemory;
  }

  lemma StaleCopyIsRead(dirty: Line)
    requires dirty == Overwrite(Clear(0), 40, [1])
    ensures SecondLoad([dirty, Clear(32)], Zeros(128), 80, 40) == Some([0])
  {
    var lines, memory := [dirty, Clear(32)], Zeros(128);
    assert Find(lines, 80) == 1 && ToFront(lines, 1) == [Clear(32), dirty];
    HitByte(lines, memory, 80);
    assert Find([Clear(32), dirty], 40) == 0;
    HitByte([Clear(32), dirty], memory, 40);
    hide LoadThrough;
  }
}
