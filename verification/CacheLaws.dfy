/** What a load or a store of MVP-3 leaves in its L1D and in memory (proc/mvp3/cpu.go, proc/mvp3/mmu.go). */
module CacheLaws {
  import opened Words
  import opened Isa
  import opened Cache
  import opened Mmu
  import opened Sequential
  import opened Coherence
  import opened FetchLines
  import opened Recency
  import Faults

  ghost predicate AtHand(app: App, c: Cached, i: Instr) { 0 <= Index(c.pc) < |app.code| && app.code[Index(c.pc)] == i }

  /** The line that a miss fetches: 64 bytes of memory from the missed address on, zeros behind its end. */
  ghost predicate IsFetched(line: Line, memory: Memory, a: Word) {
    && line.lo == a && line.hi == Wrap(a + 64) && |line.data| == 64
    && forall k :: 0 <= k < 64 ==> line.data[k] == if 0 <= a + k < |memory| then memory[a + k] else 0
  }

  /** All the lines but at most one are still there, and none is new but `line`. */
  ghost predicate OpensOne(before: seq<Line>, after: seq<Line>, line: Line) {
    && line in after && (forall l :: l in after ==> l == line || l in before)
    && (|before| < 16 ==> |after| == |before| + 1 && forall l :: l in before ==> l in after)
    && (|before| == 16 ==> |after| == 16 && exists victim :: victim in before && KeepsAllBut(before, after, victim))
  }

  ghost predicate KeepsAllBut(before: seq<Line>, after: seq<Line>, victim: Line) {
    forall l :: l in before ==> l in after || l == victim
  }

  lemma MissOpens(lines: seq<Line>, memory: Memory, addrs: seq<Word>)
    requires |lines| <= 16 && |addrs| > 0 && !AllResident(lines, addrs)
    ensures var l := LoadThrough(lines, memory, addrs);
            l.Some? ==>
              && l.value.memory == memory
              && exists line :: IsFetched(line, memory, addrs[0]) && OpensOne(lines, l.value.lines, line)
  {
    GetAllPermutes(lines, addrs);
    var lines1 := GetAll(lines, addrs).1;
    var l := LoadThrough(lines, memory, addrs);
    if l.Some? {
      var line := Line(addrs[0], Wrap(addrs[0] + LINE_LENGTH), FetchLine(memory, addrs[0]));
      WritingBackIncomingIsIdle(memory, addrs[0]);
      PushMembers(lines1, line);
      var lines2 := Push(lines1, NUMBER_OF_LINES, line);
      GetAllPermutes(lines2, addrs);
      assert SameLines(lines2, l.value.lines);
      assert IsFetched(line, memory, addrs[0]);
      hide GetAll, Push, FetchLine, IsFetched;
      if |lines1| == 16 { assert lines1[15] in lines && KeepsAllBut(lines, lines2, lines1[15]); }
    }
  }

  /** A load that goes on changes no memory. If the L1D holds all its bytes the lines stay, in another order; otherwise
      the line at its first address is opened, and one falls out if there were sixteen. */
  lemma LoadLeaves(app: App, order: seq<Word>, c: Cached, i: Instr)
    requires AtHand(app, c, i) && i.Load? && |c.lines| <= 16 && StepCached(Plain, app, order, c).CachedNext?
    ensures var t, addrs := StepCached(Plain, app, order, c).next, MemoryRead(i, NO_FORWARD, c.regs);
            && t.memory == c.memory && addrs != []
            && if AllResident(c.lines, addrs) then SameLines(c.lines, t.lines)
               else exists line :: IsFetched(line, c.memory, addrs[0]) && OpensOne(c.lines, t.lines, line)
  {
    var addrs := MemoryRead(i, NO_FORWARD, c.regs);
    assert |addrs| == Bytes(i.width);
    LoadUnfolds(app, order, c, i);
    hide MemoryRead, StepCached, LoadThrough;
    if AllResident(c.lines, addrs) {
      HitStays(c.lines, c.memory, addrs);
    } else {
      MissOpens(c.lines, c.memory, addrs);
    }
  }

  lemma HitStays(lines: seq<Line>, memory: Memory, addrs: seq<Word>)
    requires |addrs| > 0 && AllResident(lines, addrs)
    ensures var l := LoadThrough(lines, memory, addrs);
            l.Some? && l.value.memory == memory && SameLines(lines, l.value.lines)
  {
    GetAllPermutes(lines, addrs);
    hide GetAll, Resident;
  }

  lemma LoadUnfolds(app: App, order: seq<Word>, c: Cached, i: Instr)
    requires AtHand(app, c, i) && i.Load? && StepCached(Plain, app, order, c).CachedNext?
    requires |MemoryRead(i, NO_FORWARD, c.regs)| > 0
    ensures var l, t := LoadThrough(c.lines, c.memory, MemoryRead(i, NO_FORWARD, c.regs)),
                        StepCached(Plain, app, order, c).next;
            l.Some? && t.lines == l.value.lines && t.memory == l.value.memory
  {
    hide LoadThrough, MemoryRead, LoadedWord;
  }

  /** A store that goes on opens no line. If the L1D holds all its bytes it changes one line there and no memory;
      otherwise it changes memory and no line. */
  lemma StoreLeaves(app: App, order: seq<Word>, c: Cached, i: Instr)
    requires AtHand(app, c, i) && i.Store? && StepCached(Plain, app, order, c).CachedNext?
    ensures var t, e := StepCached(Plain, app, order, c).next, StoreExecution(app, c.pc, c.regs, i);
            && t.regs == c.regs && t.pc == Wrap(c.pc + 4)
            && if AllResident(c.lines, StoredAt(app, c, i))
               then t.memory == c.memory
                    && exists lines1 ::
                         SameLines(c.lines, lines1) && WriteTo(lines1, e.address, e.data) == Some(t.lines)
               else SameLines(c.lines, t.lines) && WriteMemory(c.memory, e.address, e.data) == Some(t.memory)
  {
    Faults.StoreOnCached(Plain, app, order, c, i);
    var e := StoreExecution(app, c.pc, c.regs, i);
    var addrs := Addresses(e.address, |e.data|);
    ArrangedResident(c.lines, order, addrs);
    GetAllPermutes(c.lines, Arrange(order, addrs));
    hide StepCached, GetAll, WriteTo, WriteMemory, Arrange, Addresses, Resident, StoreExecution;
    StoredAtIs(app, c, i);
  }

  lemma StoredAtIs(app: App, c: Cached, i: Instr)
    requires i.Store?
    ensures var e := StoreExecution(app, c.pc, c.regs, i); StoredAt(app, c, i) == Addresses(e.address, |e.data|)
  {
    hide Addresses;
  }

  // ---------------------------------------------------------------- the L1D of a run

  /** What reading some addresses in turn does to a cache: a Get of each up to the first that no line holds. */
  function Reads(lines: seq<Line>, addrs: seq<Word>): seq<Use>
    decreases |addrs|
  {
    if addrs == [] then [] else
      [DoGet(addrs[0])] + if Get(lines, addrs[0]).0.None? then [] else Reads(Get(lines, addrs[0]).1, addrs[1..])
  }

  function After(uses: seq<Use>): seq<Line> { CacheAfter(16, uses).lines }

  lemma OneMore(uses: seq<Use>, use: Use)
    ensures After(uses + [use])
         == match use
            case DoGet(a) => Get(After(uses), a).1
            case DoWrite(a, data) =>
              (var w := WriteTo(After(uses), a, data); if w.None? then After(uses) else w.value)
            case DoPush(line) => Push(After(uses), 16, line)
  {
    assert (uses + [use])[..|uses|] == uses;
  }

  lemma ReadsUnfold(lines: seq<Line>, addrs: seq<Word>)
    requires addrs != []
    ensures Reads(lines, addrs)
         == if Get(lines, addrs[0]).0.None? then [DoGet(addrs[0])]
            else [DoGet(addrs[0])] + Reads(Get(lines, addrs[0]).1, addrs[1..])
  {
    hide Get;
    assert [DoGet(addrs[0])] + [] == [DoGet(addrs[0])];
  }

  lemma ThenMore(uses: seq<Use>, use: Use, more: seq<Use>)
    ensures (uses + [use]) + more == uses + ([use] + more)
  {
  }

  lemma {:induction false} ReadsAreGets(uses: seq<Use>, addrs: seq<Word>)
    ensures After(uses + Reads(After(uses), addrs)) == GetAll(After(uses), addrs).1
    decreases |addrs|
  {
    if addrs == [] {
      assert uses + [] == uses;
    } else {
      hide After, Get, GetAll, Reads;
      var use, lines := DoGet(addrs[0]), After(uses);
      GetAllUnfolds(lines, addrs);
      ReadsUnfold(lines, addrs);
      OneMore(uses, use);
      if Get(lines, addrs[0]).0.Some? {
        ReadsAreGets(uses + [use], addrs[1..]);
        ThenMore(uses, use, Reads(Get(lines, addrs[0]).1, addrs[1..]));
      }
    }
  }

  lemma GetAllUnfolds(lines: seq<Line>, addrs: seq<Word>)
    requires addrs != []
    ensures var (b, lines1) := Get(lines, addrs[0]);
            GetAll(lines, addrs).1 == if b.None? then lines1 else GetAll(lines1, addrs[1..]).1
  {
    hide Get;
  }

  function FetchedAt(memory: Memory, a: Word): Line
    requires a >= 0
  {
    Line(a, EndOf(a), FetchLine(memory, a))
  }

  /** The uses that one step makes of its L1D. */
  ghost function UsesOf(app: App, order: seq<Word>, c: Cached): seq<Use> {
    if !(0 <= Index(c.pc) < |app.code|) then [] else
      var i := app.code[Index(c.pc)];
      var addrs := MemoryRead(i, NO_FORWARD, c.regs);
      if i.Store? then
        var e := StoreExecution(app, c.pc, c.regs, i);
        Reads(c.lines, Arrange(order, Addresses(e.address, |e.data|)))
        + if AllResident(c.lines, StoredAt(app, c, i)) then [DoWrite(e.address, e.data)] else []
      else if addrs == [] then []
      else if AllResident(c.lines, addrs) || addrs[0] < 0 then Reads(c.lines, addrs)
      else
        var line := FetchedAt(c.memory, addrs[0]);
        Reads(c.lines, addrs) + [DoPush(line)] + Reads(Push(GetAll(c.lines, addrs).1, 16, line), addrs)
  }

  lemma MissUnfolds(lines: seq<Line>, memory: Memory, addrs: seq<Word>)
    requires |addrs| > 0 && LoadThrough(lines, memory, addrs).Some? && !AllResident(lines, addrs)
    ensures addrs[0] >= 0
    ensures LoadThrough(lines, memory, addrs).value.lines
         == GetAll(Push(GetAll(lines, addrs).1, 16, FetchedAt(memory, addrs[0])), addrs).1
  {
    GetAllPermutes(lines, addrs);
    hide GetAll, Push, FetchLine, Resident;
  }

  lemma LoadUses(uses: seq<Use>, memory: Memory, addrs: seq<Word>)
    requires |addrs| > 0 && LoadThrough(After(uses), memory, addrs).Some?
    ensures var lines, l := After(uses), LoadThrough(After(uses), memory, addrs).value;
            if AllResident(lines, addrs) then After(uses + Reads(lines, addrs)) == l.lines
            else addrs[0] >= 0
                 && var line := FetchedAt(memory, addrs[0]);
                    var more := Reads(lines, addrs) + [DoPush(line)]
                      + Reads(Push(GetAll(lines, addrs).1, 16, line), addrs);
                    After(uses + more) == l.lines
  {
    hide After, Reads, GetAll, Push, AllResident, LoadThrough, FetchedAt;
    var lines := After(uses);
    ReadsAreGets(uses, addrs);
    if AllResident(lines, addrs) {
      HitReads(lines, memory, addrs);
    } else {
      MissUnfolds(lines, memory, addrs);
      var line := FetchedAt(memory, addrs[0]);
      var uses1 := uses + Reads(lines, addrs);
      OneMore(uses1, DoPush(line));
      var uses2 := uses1 + [DoPush(line)];
      ReadsAreGets(uses2, addrs);
      Associate(uses, Reads(lines, addrs), [DoPush(line)], Reads(After(uses2), addrs));
    }
  }

  lemma HitReads(lines: seq<Line>, memory: Memory, addrs: seq<Word>)
    requires |addrs| > 0 && AllResident(lines, addrs)
    ensures LoadThrough(lines, memory, addrs).Some?
    ensures LoadThrough(lines, memory, addrs).value.lines == GetAll(lines, addrs).1
  {
    GetAllPermutes(lines, addrs);
    hide GetAll, Resident;
  }

  lemma Associate<T>(a: seq<T>, b: seq<T>, c: seq<T>, d: seq<T>)
    ensures ((a + b) + c) + d == a + (b + c + d)
  {
  }

  lemma StepUses(app: App, order: seq<Word>, c: Cached, uses: seq<Use>)
    requires c.lines == After(uses) && StepCached(Plain, app, order, c).CachedNext?
    ensures StepCached(Plain, app, order, c).next.lines == After(uses + UsesOf(app, order, c))
  {
    hide After, Reads, GetAll, Push, AllResident, LoadThrough, Arrange, WriteTo, WriteMemory, StoreExecution;
    InProgram(app, order, c);
    var i := app.code[Index(c.pc)];
    if i.Load? {
      LoadHasAddresses(i, c.regs);
      LoadUnfolds(app, order, c, i);
      LoadUses(uses, c.memory, MemoryRead(i, NO_FORWARD, c.regs));
      hide StepCached, MemoryRead;
    } else if i.Store? {
      StoreUses(app, order, c, i, uses);
      hide StepCached;
    } else {
      OtherKeepsLines(app, order, c, i);
      assert uses + [] == uses;
    }
  }

  lemma InProgram(app: App, order: seq<Word>, c: Cached)
    requires StepCached(Plain, app, order, c).CachedNext?
    ensures 0 <= Index(c.pc) < |app.code|
  {
    hide FetchOperands, Run;
  }

  lemma LoadHasAddresses(i: Instr, regs: Regs)
    requires i.Load?
    ensures |MemoryRead(i, NO_FORWARD, regs)| > 0
  {
    assert |MemoryRead(i, NO_FORWARD, regs)| == Bytes(i.width);
  }

  lemma OtherKeepsLines(app: App, order: seq<Word>, c: Cached, i: Instr)
    requires AtHand(app, c, i) && !i.Load? && !i.Store? && StepCached(Plain, app, order, c).CachedNext?
    ensures StepCached(Plain, app, order, c).next.lines == c.lines && MemoryRead(i, NO_FORWARD, c.regs) == []
  {
    hide Alu, Wrap;
  }

  lemma StoreUses(app: App, order: seq<Word>, c: Cached, i: Instr, uses: seq<Use>)
    requires AtHand(app, c, i) && i.Store? && StepCached(Plain, app, order, c).CachedNext? && c.lines == After(uses)
    ensures var e := StoreExecution(app, c.pc, c.regs, i);
            var more := Reads(c.lines, Arrange(order, Addresses(e.address, |e.data|)))
              + if AllResident(c.lines, StoredAt(app, c, i)) then [DoWrite(e.address, e.data)] else [];
            StepCached(Plain, app, order, c).next.lines == After(uses + more)
  {
    hide StepCached, After, Reads, GetAll, WriteTo, WriteMemory, Arrange, AllResident, StoreExecution, Addresses;
    Faults.StoreOnCached(Plain, app, order, c, i);
    var e := StoreExecution(app, c.pc, c.regs, i);
    var walk := Arrange(order, Addresses(e.address, |e.data|));
    StoredAtIs(app, c, i);
    ArrangedResident(c.lines, order, Addresses(e.address, |e.data|));
    ReadsAreGets(uses, walk);
    OneMore(uses + Reads(c.lines, walk), DoWrite(e.address, e.data));
    if AllResident(c.lines, StoredAt(app, c, i)) {
      assert (uses + Reads(c.lines, walk)) + [DoWrite(e.address, e.data)]
          == uses + (Reads(c.lines, walk) + [DoWrite(e.address, e.data)]);
    } else {
      assert Reads(c.lines, walk) + [] == Reads(c.lines, walk);
    }
  }

  /** The uses of the first n instructions. */
  ghost function UsesIn(app: App, orders: nat -> seq<Word>, start: Cached, n: nat): seq<Use> {
    if n == 0 then [] else
      match Reference(Plain, app, orders, start, n - 1)
      case None => []
      case Some(c) => UsesIn(app, orders, start, n - 1) + UsesOf(app, orders(n - 1), c)
  }

  /** Over every run of MVP-3 from an empty L1D its lines are those of the least-recently-used cache after the reads,
      fetched lines and stores of the run, in order. */
  lemma {:induction false} L1dIsOfTheRun(app: App, orders: nat -> seq<Word>, start: Cached, n: nat)
    requires start.lines == [] && Reference(Plain, app, orders, start, n).Some?
    ensures Reference(Plain, app, orders, start, n).value.lines == After(UsesIn(app, orders, start, n))
  {
    hide StepCached, UsesOf, After;
    if n > 0 {
      L1dIsOfTheRun(app, orders, start, n - 1);
      var c := Reference(Plain, app, orders, start, n - 1).value;
      StepUses(app, orders(n - 1), c, UsesIn(app, orders, start, n - 1));
    } else {
      NothingUsed();
    }
  }

  lemma NothingUsed()
    ensures After([]) == []
  {
  }
}
