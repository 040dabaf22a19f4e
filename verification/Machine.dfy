/** The objects the cores share and update in place: buses (proc/comp/bus.go), context (risc/app.go), memory management
    unit (proc/mvp3/mmu.go). Each method is held against the function that says what it does. */
module Machine {
  import opened Words
  import opened Isa
  import opened Cache
  import opened Mmu
  import opened Sequential
  import opened Pipeline
  import opened Scoreboard
  import Buffered = BufferedBus

  // ---------------------------------------------------------------- buses

  class SimpleBus<T> {
    var pending: Option<T>
    var current: Option<T>

    function View(): Bus<T>
      reads this
    {
      Bus(current, pending)
    }

    constructor ()
      ensures View() == Bus(None, None)
    {
      pending := None;
      current := None;
    }

    /** Taking moves the pending entry up whether or not there was a current one. */
    method Get() returns (t: Option<T>)
      modifies this
      ensures t == old(View()).current && View() == old(View()).Shift()
    {
      t := current;
      current := pending;
      pending := None;
    }

    predicate CanAdd()
      reads this
    {
      pending.None?
    }

    method Add(t: T)
      modifies this`pending
      ensures View() == old(View()).(pending := Some(t))
    {
      pending := Some(t);
    }

    method Clean()
      modifies this
      ensures View() == Bus(None, None)
    {
      pending := None;
      current := None;
    }
  }

  class TimedBus<T> {
    const queueLength: nat
    const bufferLength: nat
    var queue: seq<T>
    var buffer: seq<Buffered.Timed<T>>

    function View(): Buffered.Bus<T>
      reads this
    {
      Buffered.Bus(queue, buffer)
    }

    constructor (queueLength: nat, bufferLength: nat)
      ensures View() == Buffered.Bus([], []) && this.queueLength == queueLength && this.bufferLength == bufferLength
    {
      this.queueLength := queueLength;
      this.bufferLength := bufferLength;
      queue := [];
      buffer := [];
    }

    method Add(t: T, cycle: int)
      modifies this`buffer
      ensures View() == Buffered.Add(old(View()), t, cycle)
    {
      buffer := buffer + [Buffered.Timed(cycle + 1, t)];
    }

    method Get() returns (t: Option<T>)
      modifies this`queue
      ensures t == if old(queue) == [] then None else Some(old(queue)[0])
      ensures View() == if old(queue) == [] then old(View()) else old(View()).(queue := old(queue)[1..])
    {
      if queue == [] {
        return None;
      }
      t := Some(queue[0]);
      queue := queue[1..];
    }

    method Connect(cycle: int)
      requires |queue| <= queueLength
      modifies this
      ensures View() == old(View()).Connect(queueLength, cycle)
    {
      if |queue| == queueLength {
        return;
      }
      var i := 0;
      ghost var from := |queue|;
      while i < |buffer|
        invariant i <= |buffer| && |queue| == from + i <= queueLength && buffer == old(buffer)
        invariant queue == old(queue) + Buffered.Values(buffer[..i])
        invariant Buffered.Moved(from, queueLength, buffer, cycle) == i
                  + Buffered.Moved(from + i, queueLength, buffer[i..], cycle)
      {
        if |queue| == queueLength || buffer[i].from > cycle {
          break;
        }
        assert buffer[i..][1..] == buffer[i + 1..];
        OneMoved(old(queue), buffer, i);
        queue := queue + [buffer[i].value];
        i := i + 1;
      }
      buffer := buffer[i..];
    }
  }

  lemma OneMoved<T>(queue: seq<T>, buffer: seq<Buffered.Timed<T>>, i: nat)
    requires i < |buffer|
    ensures (queue + Buffered.Values(buffer[..i])) + [buffer[i].value] == queue + Buffered.Values(buffer[..i + 1])
  {
    assert Buffered.Values(buffer[..i + 1]) == Buffered.Values(buffer[..i]) + [buffer[i].value];
  }

  // ---------------------------------------------------------------- context

  class Context {
    var registers: Regs
    var pendingWrites: Pending
    var pendingReads: Pending
    const memory: array<Byte>

    constructor (memoryBytes: nat)
      ensures registers == map[] && pendingWrites == map[] && pendingReads == map[]
      ensures fresh(memory) && memory.Length == memoryBytes && forall k :: 0 <= k < memoryBytes ==> memory[k] == 0
    {
      registers := map[];
      pendingWrites := map[];
      pendingReads := map[];
      memory := new Byte[memoryBytes](_ => 0);
    }

    function View(): Board
      reads this
    {
      Board(pendingReads, pendingWrites)
    }

    method Flush()
      modifies this`pendingWrites, this`pendingReads
      ensures View() == Board(map[], map[])
    {
      pendingWrites := map[];
      pendingReads := map[];
    }

    method WriteRegister(exe: Execution)
      modifies this`registers
      ensures registers == old(registers)[exe.register := exe.registerValue]
    {
      registers := registers[exe.register := exe.registerValue];
    }

    /** `ok` is false where the source panics, with some of the bytes written. Which ones is up to Go's walk over the
        map. */
    method WriteMemory(exe: Execution) returns (ok: bool)
      modifies memory
      ensures ok == Mmu.WriteMemory(old(memory[..]), exe.address, exe.data).Some?
      ensures ok ==> Some(memory[..]) == Mmu.WriteMemory(old(memory[..]), exe.address, exe.data)
      ensures forall k :: 0 <= k < memory.Length ==>
        || memory[k] == old(memory[k])
        || (exe.address <= k < exe.address + |exe.data| && memory[k] == exe.data[k - exe.address])
    {
      var i := 0;
      while i < |exe.data|
        invariant i <= |exe.data|
        invariant i > 0 ==> 0 <= exe.address && exe.address + i <= memory.Length
        invariant forall k :: 0 <= k < memory.Length ==>
          memory[k] == if exe.address <= k < exe.address + i then exe.data[k - exe.address] else old(memory[k])
      {
        if !(0 <= exe.address + i < memory.Length) {
          return false;
        }
        memory[exe.address + i] := exe.data[i];
        i := i + 1;
      }
      if exe.data == [] && !(0 <= exe.address <= memory.Length) {
        return false;
      }
      ok := true;
      assert memory[..] == WriteTruncated(old(memory[..]), exe.address, exe.data);
    }

    // What MVP-4 and MVP-5 keep count of.

    method AddPendingWriteRegisters(rs: seq<Reg>)
      modifies this`pendingWrites
      ensures pendingWrites == Pipeline.AddAll(old(pendingWrites), rs)
    {
      var i := 0;
      while i < |rs|
        invariant i <= |rs|
        invariant Pipeline.AddAll(pendingWrites, rs[i..]) == Pipeline.AddAll(old(pendingWrites), rs)
      {
        assert rs[i..][1..] == rs[i + 1..];
        pendingWrites := pendingWrites[rs[i] := Count(pendingWrites, rs[i]) + 1];
        i := i + 1;
      }
    }

    /** The count goes down, and it is the register, not the count, that is deleted. */
    method DeletePendingWriteRegisters(rs: seq<Reg>)
      modifies this`pendingWrites, this`registers
      ensures pendingWrites == SubAll(old(pendingWrites), rs)
      ensures registers == DropNonPositive(old(registers), rs)
    {
      var i := 0;
      while i < |rs|
        invariant i <= |rs|
        invariant SubAll(pendingWrites, rs[i..]) == SubAll(old(pendingWrites), rs)
        invariant DropNonPositive(registers, rs[i..]) == DropNonPositive(old(registers), rs)
      {
        assert rs[i..][1..] == rs[i + 1..];
        pendingWrites := pendingWrites[rs[i] := Count(pendingWrites, rs[i]) - 1];
        if Read(registers, rs[i]) <= 0 {
          registers := registers - {rs[i]};
        }
        i := i + 1;
      }
    }

    method IsWriteDataHazard(rs: seq<Reg>) returns (b: bool)
      ensures b <==> exists k :: 0 <= k < |rs| && rs[k] != ZERO && Count(pendingWrites, rs[k]) > 0
    {
      var i := 0;
      while i < |rs|
        invariant i <= |rs|
        invariant forall k :: 0 <= k < i ==> !(rs[k] != ZERO && Count(pendingWrites, rs[k]) > 0)
      {
        if rs[i] != ZERO && Count(pendingWrites, rs[i]) > 0 {
          return true;
        }
        i := i + 1;
      }
      return false;
    }

    // What MVP-6.0 and MVP-6.1 keep count of.

    method AddPendingRegisters(i: Instr)
      modifies this`pendingReads, this`pendingWrites
      ensures View() == AddPending(old(View()), i)
    {
      pendingReads := Raised(pendingReads, ReadRegisters(i));
      pendingWrites := Raised(pendingWrites, WriteRegisters(i));
    }

    method DeletePendingRegisters(rs: seq<Reg>, ws: seq<Reg>)
      modifies this`pendingReads, this`pendingWrites
      ensures View() == Board(Lower(old(pendingReads), rs), Lower(old(pendingWrites), ws))
    {
      pendingReads := Lowered(pendingReads, rs);
      pendingWrites := Lowered(pendingWrites, ws);
    }

    method IsDataHazard3(i: Instr) returns (hazards: seq<Hazard>)
      ensures hazards == Hazards(View(), i)
    {
      hazards := [];
      var k, rs, ws := 0, ReadRegisters(i), WriteRegisters(i);
      while k < |rs|
        invariant k <= |rs|
        invariant hazards + ReadHazards(View(), rs[k..]) == ReadHazards(View(), rs)
      {
        assert rs[k..][1..] == rs[k + 1..];
        if rs[k] != ZERO && Count(pendingWrites, rs[k]) > 0 {
          hazards := hazards + [Hazard(ReadAfterWrite, rs[k])];
        }
        k := k + 1;
      }
      var writing := WriteHazardsOf(ws);
      hazards := hazards + writing;
    }

    method WriteHazardsOf(ws: seq<Reg>) returns (hazards: seq<Hazard>)
      ensures hazards == WriteHazards(View(), ws)
    {
      hazards := [];
      var k := 0;
      while k < |ws|
        invariant k <= |ws|
        invariant hazards + WriteHazards(View(), ws[k..]) == WriteHazards(View(), ws)
      {
        WriteHazardsUnfold(View(), ws, k, hazards);
        hide WriteHazards;
        if ws[k] != ZERO && Count(pendingWrites, ws[k]) > 0 {
          hazards := hazards + [Hazard(WriteAfterWrite, ws[k])];
        }
        if ws[k] != ZERO && Count(pendingReads, ws[k]) > 0 {
          hazards := hazards + [Hazard(WriteAfterRead, ws[k])];
        }
        k := k + 1;
      }
    }
  }

  /** What the next register written adds to the hazards found so far. */
  lemma WriteHazardsUnfold(b: Board, ws: seq<Reg>, k: nat, found: seq<Hazard>)
    requires k < |ws|
    ensures var waw := if ws[k] != ZERO && Count(b.writers, ws[k]) > 0 then found + [Hazard(WriteAfterWrite, ws[k])]
            else found;
            var war := if ws[k] != ZERO && Count(b.readers, ws[k]) > 0 then waw + [Hazard(WriteAfterRead, ws[k])]
              else waw;
            found + WriteHazards(b, ws[k..]) == war + WriteHazards(b, ws[k + 1..])
  {
    assert ws[k..][1..] == ws[k + 1..];
    var rest := WriteHazards(b, ws[k + 1..]);
    hide WriteHazards;
  }

  method Raised(p: Pending, rs: seq<Reg>) returns (q: Pending)
    ensures q == Raise(p, rs)
  {
    q := p;
    var i := 0;
    while i < |rs|
      invariant i <= |rs| && Raise(q, rs[i..]) == Raise(p, rs)
    {
      assert rs[i..][1..] == rs[i + 1..];
      if rs[i] != ZERO {
        q := q[rs[i] := Count(q, rs[i]) + 1];
      }
      i := i + 1;
    }
  }

  method Lowered(p: Pending, rs: seq<Reg>) returns (q: Pending)
    ensures q == Lower(p, rs)
  {
    q := p;
    var i := 0;
    while i < |rs|
      invariant i <= |rs| && Lower(q, rs[i..]) == Lower(p, rs)
    {
      assert rs[i..][1..] == rs[i + 1..];
      if rs[i] != ZERO {
        q := if Count(q, rs[i]) - 1 <= 0 then q - {rs[i]} else q[rs[i] := Count(q, rs[i]) - 1];
      }
      i := i + 1;
    }
  }

  // ---------------------------------------------------------------- memory management unit

  predicate FullLines(lines: seq<Line>) {
    forall k :: 0 <= k < |lines| ==> |lines[k].data| == LINE_LENGTH && lines[k].lo >= 0
  }

  lemma {:induction false} GetAllKeepsFull(lines: seq<Line>, addrs: seq<Word>)
    requires FullLines(lines)
    ensures FullLines(GetAll(lines, addrs).1)
    decreases |addrs|
  {
    if addrs != [] { GetAllKeepsFull(Get(lines, addrs[0]).1, addrs[1..]); }
  }

  class MemoryManagementUnit {
    const ctx: Context
    const l1i: LRUCache
    const l1d: LRUCache
    /** The cycles of an access to memory, a constant of each core. */
    const accessCost: nat

    predicate Valid()
      reads this, l1i, l1d
    {
      && l1i != l1d
      && l1i.lineLength == l1d.lineLength == LINE_LENGTH && l1i.numberOfLines == l1d.numberOfLines == NUMBER_OF_LINES
      && FullLines(l1d.lines)
    }

    constructor (ctx: Context, accessCost: nat)
      ensures this.ctx == ctx && this.accessCost == accessCost
      ensures Valid() && fresh(l1i) && fresh(l1d) && l1i.lines == [] && l1d.lines == []
    {
      this.ctx, this.accessCost := ctx, accessCost;
      l1i := new LRUCache(LINE_LENGTH, LINE_LENGTH * NUMBER_OF_LINES);
      l1d := new LRUCache(LINE_LENGTH, LINE_LENGTH * NUMBER_OF_LINES);
    }

    method GetFromL1I(a: Word) returns (hit: bool)
      requires Valid()
      modifies l1i
      ensures Valid() && (hit, l1i.lines) == (Get(old(l1i.lines), a).0.Some?, Get(old(l1i.lines), a).1)
    {
      var b := l1i.Read(a);
      hit := b.Some?;
    }

    method PushLineToL1I(a: Word, data: seq<Byte>)
      requires Valid() && |data| == LINE_LENGTH
      modifies l1i
      ensures Valid() && l1i.lines == Push(old(l1i.lines), NUMBER_OF_LINES, Line(a, Wrap(a + LINE_LENGTH), data))
    {
      var _ := l1i.PushLine(a, data);
    }

    method GetFromL1D(addrs: seq<Word>) returns (bytes: Option<seq<Byte>>)
      requires Valid()
      modifies l1d
      ensures Valid() && (bytes, l1d.lines) == GetAll(old(l1d.lines), addrs)
    {
      var data := [];
      var i := 0;
      assert addrs[0..] == addrs;
      GetAllKeepsFull(l1d.lines, addrs);
      PrefixedEnds([], GetAll(l1d.lines, addrs));
      while i < |addrs|
        invariant i <= |addrs| && FullLines(l1d.lines)
        invariant Prefixed(data, GetAll(l1d.lines, addrs[i..])) == GetAll(old(l1d.lines), addrs)
      {
        assert addrs[i..][1..] == addrs[i + 1..];
        ghost var before, sofar := l1d.lines, data;
        var b := l1d.Read(addrs[i]);
        if b.None? {
          return None;
        }
        data := data + [b.value];
        PrefixedStep(before, addrs[i..], sofar);
        i := i + 1;
      }
      PrefixedEnds(data, (Some([]), l1d.lines));
      bytes := Some(data);
    }

    /** Asks for every address a store changes, in the order of the walk over its map of changes. */
    method DoesExecutionMemoryChangesExistsInL1D(order: seq<Word>, exe: Execution) returns (hit: bool)
      requires Valid()
      modifies l1d
      ensures Valid() && hit == LookUp(old(l1d.lines), order, exe).0.Some?
              && l1d.lines == LookUp(old(l1d.lines), order, exe).1
    {
      var bytes := GetFromL1D(Arrange(order, Addresses(exe.address, |exe.data|)));
      hit := bytes.Some?;
    }

    /** `ok` is false where the source panics. */
    method WriteExecutionMemoryChangesToL1D(exe: Execution) returns (ok: bool)
      requires Valid()
      modifies l1d
      ensures Valid()
      ensures var w := WriteTo(old(l1d.lines), exe.address, exe.data);
              ok == w.Some? && l1d.lines == if ok then w.value else old(l1d.lines)
    {
      ok := l1d.Write(exe.address, exe.data);
    }

    method FetchCacheLine(a: Word) returns (data: seq<Byte>)
      requires a >= 0
      ensures data == FetchLine(ctx.memory[..], a)
    {
      data := [];
      var i := 0;
      while i < LINE_LENGTH
        invariant i <= LINE_LENGTH && data == FetchLine(ctx.memory[..], a)[..i]
      {
        data := data + [if a + i >= ctx.memory.Length then 0 else ctx.memory[a + i]];
        i := i + 1;
      }
    }

    method WriteToMemory(a: Word, data: seq<Byte>)
      requires a >= 0
      modifies ctx.memory
      ensures ctx.memory[..] == WriteTruncated(old(ctx.memory[..]), a, data)
    {
      var i := 0;
      while i < |data|
        invariant i <= |data| && (i > 0 ==> a + i <= ctx.memory.Length)
        invariant forall k :: 0 <= k < ctx.memory.Length ==>
          ctx.memory[k] == if a <= k < a + i then data[k - a] else old(ctx.memory[k])
      {
        if a + i >= ctx.memory.Length {
          return;
        }
        ctx.memory[a + i] := data[i];
        i := i + 1;
      }
    }

    /** When a line has to go, the one just fetched is written back. */
    method PushLineToL1D(a: Word, data: seq<Byte>)
      requires Valid() && a >= 0 && |data| == LINE_LENGTH
      modifies l1d, ctx.memory
      ensures Valid() && l1d.lines == Push(old(l1d.lines), NUMBER_OF_LINES, Line(a, Wrap(a + LINE_LENGTH), data))
      ensures ctx.memory[..] == if |old(l1d.lines)| + 1 > NUMBER_OF_LINES then
                WriteTruncated(old(ctx.memory[..]), a, data)
                                else old(ctx.memory[..])
    {
      ghost var all := |l1d.lines| + 1;
      var evicted := l1d.PushLine(a, data);
      if evicted != [] {
        WriteToMemory(a, data);
      }
    }

    /** What the cores do for a load that misses. `bytes` is None where the source panics. */
    method FetchAndRead(addrs: seq<Word>) returns (bytes: Option<seq<Byte>>)
      requires Valid() && addrs != []
      modifies l1d, ctx.memory
      ensures Valid()
      ensures var l := LoadMiss(old(l1d.lines), old(ctx.memory[..]), addrs);
              && bytes.Some? == l.Some?
              && (l.Some? ==>
                    && bytes.value == l.value.bytes && l1d.lines == l.value.lines
                    && ctx.memory[..] == l.value.memory)
    {
      if addrs[0] < 0 {
        return None;
      }
      var data := FetchCacheLine(addrs[0]);
      PushLineToL1D(addrs[0], data);
      bytes := GetFromL1D(addrs);
    }

    /** Writes every line back, many times over, and returns the cycles this costs. */
    method Flush() returns (cycles: nat)
      requires Valid()
      modifies ctx.memory
      ensures ctx.memory[..] == Flushed(l1d.lines, old(ctx.memory[..]))
      ensures cycles == |l1d.lines| * accessCost
    {
      cycles := 0;
      var k := 0;
      while k < |l1d.lines|
        invariant k <= |l1d.lines| && cycles == k * accessCost
        invariant Flushed(l1d.lines[k..], ctx.memory[..]) == Flushed(l1d.lines, old(ctx.memory[..]))
      {
        var line := l1d.lines[k];
        assert l1d.lines[k..][0] == line && l1d.lines[k..][1..] == l1d.lines[k + 1..];
        ghost var before := ctx.memory[..];
        cycles := cycles + accessCost;
        var i := 0;
        while i < LINE_LENGTH
          invariant i <= LINE_LENGTH
          invariant ctx.memory[..] == if i == 0 then before else WriteTruncated(before, line.lo, line.data)
        {
          WriteToMemory(line.lo, line.data);
          i := i + 1;
        }
        k := k + 1;
      }
    }
  }

  lemma PrefixedEnds(data: seq<Byte>, r: (Option<seq<Byte>>, seq<Line>))
    ensures data == [] ==> Prefixed(data, r) == r
    ensures r.0 == Some([]) ==> Prefixed(data, r) == (Some(data), r.1)
  {
    if r.0.Some? { assert [] + r.0.value == r.0.value && data + [] == data; }
  }

  /** The outcome of reading more addresses after these bytes. */
  function Prefixed(data: seq<Byte>, r: (Option<seq<Byte>>, seq<Line>)): (Option<seq<Byte>>, seq<Line>) {
    (if r.0.Some? then Some(data + r.0.value) else None, r.1)
  }

  lemma PrefixedStep(lines: seq<Line>, addrs: seq<Word>, data: seq<Byte>)
    requires addrs != [] && Get(lines, addrs[0]).0.Some?
    ensures var g := Get(lines, addrs[0]);
            Prefixed(data, GetAll(lines, addrs)) == Prefixed(data + [g.0.value], GetAll(g.1, addrs[1..]))
  {
    var g := Get(lines, addrs[0]);
    var rest := GetAll(g.1, addrs[1..]);
    if rest.0.Some? {
      assert data + ([g.0.value] + rest.0.value) == (data + [g.0.value]) + rest.0.value;
    }
  }
}
