/** When the L1D of MVP-3 is invisible: the cached core against the core on flat memory (proc/mvp3). */
module Coherence {
  import opened Words
  import opened Isa
  import opened Cache
  import opened Mmu
  import opened Sequential

  // ---------------------------------------------------------------- the view through the cache

  ghost predicate Resident(lines: seq<Line>, a: Word) { exists l :: l in lines && Covers(l, a) }

  /** Lines as LoadMiss makes them. */
  ghost predicate Shaped(l: Line) {
    0 <= l.lo && |l.data| == LINE_LENGTH && l.hi == Wrap(l.lo + LINE_LENGTH)
  }

  ghost predicate CopiesAgree(lines: seq<Line>, flat: Memory) {
    forall l, a: Word :: l in lines && Covers(l, a) && 0 <= a < |flat| ==> At(l, a) == flat[a]
  }

  ghost predicate RestAgrees(lines: seq<Line>, memory: Memory, flat: Memory)
    requires |memory| == |flat|
  {
    forall a: Word :: 0 <= a < |flat| && !Resident(lines, a) ==> memory[a] == flat[a]
  }

  /** Every resident copy of a byte is up to date, and memory is wherever there is no copy. */
  ghost predicate Coherent(lines: seq<Line>, memory: Memory, flat: Memory) {
    && |memory| == |flat| <= 0x8000_0000 - LINE_LENGTH
    && |lines| <= NUMBER_OF_LINES
    && (forall l :: l in lines ==> Shaped(l))
    && CopiesAgree(lines, flat)
    && RestAgrees(lines, memory, flat)
  }

  ghost predicate SameLines(a: seq<Line>, b: seq<Line>) { |a| == |b| && forall l :: l in a <==> l in b }

  lemma SameLinesSameView(a: seq<Line>, b: seq<Line>, memory: Memory, flat: Memory)
    requires SameLines(a, b)
    ensures Coherent(a, memory, flat) <==> Coherent(b, memory, flat)
    ensures forall x: Word :: Resident(a, x) <==> Resident(b, x)
  {
  }

  lemma ToFrontPermutes(lines: seq<Line>, i: nat)
    requires i < |lines|
    ensures SameLines(lines, ToFront(lines, i))
    ensures multiset(ToFront(lines, i)) == multiset(lines)
  {
    assert lines == lines[..i] + [lines[i]] + lines[i + 1..];
  }

  /** A hit only permutes the lines. A miss among several addresses too. */
  lemma {:induction false} GetAllPermutes(lines: seq<Line>, addrs: seq<Word>)
    ensures var (r, lines1) := GetAll(lines, addrs);
            && SameLines(lines, lines1)
            && (r.Some? <==> forall k :: 0 <= k < |addrs| ==> Resident(lines, addrs[k]))
            && (r.Some? ==> forall k :: 0 <= k < |addrs| ==>
                  exists l :: l in lines && Covers(l, addrs[k]) && At(l, addrs[k]) == r.value[k])
    decreases |addrs|
  {
    if addrs != [] {
      var i := Find(lines, addrs[0]);
      if i < |lines| {
        ToFrontPermutes(lines, i);
        var lines1 := ToFront(lines, i);
        GetAllPermutes(lines1, addrs[1..]);
        SameLinesSameView(lines, lines1, [], []);
        var (r, lines2) := GetAll(lines, addrs);
        var (s, _) := GetAll(lines1, addrs[1..]);
        assert Covers(lines[i], addrs[0]) && lines[i] in lines;
        forall k | 0 <= k < |addrs|
          ensures r.Some? ==> Resident(lines, addrs[k]) && exists l ::
                    l in lines && Covers(l, addrs[k]) && At(l, addrs[k]) == r.value[k]
        {
          if k > 0 { assert addrs[k] == addrs[1..][k - 1]; }
        }
        if s.None? {
          var k :| 0 <= k < |addrs[1..]| && !Resident(lines1, addrs[1..][k]);
          assert addrs[k + 1] == addrs[1..][k];
        }
      } else {
        assert !Resident(lines, addrs[0]);
      }
    }
  }

  lemma LoadedBytesAreFlat(lines: seq<Line>, memory: Memory, flat: Memory, addrs: seq<Word>)
    requires Coherent(lines, memory, flat) && InRange(flat, addrs) && GetAll(lines, addrs).0.Some?
    ensures GetAll(lines, addrs).0.value == BytesAt(flat, addrs)
  {
    GetAllPermutes(lines, addrs);
    var bytes := GetAll(lines, addrs).0.value;
    forall k | 0 <= k < |addrs| ensures bytes[k] == flat[addrs[k]] {
      var l :| l in lines && Covers(l, addrs[k]) && At(l, addrs[k]) == bytes[k];
    }
  }

  // ---------------------------------------------------------------- a load that misses

  /** Memory is up to date where the new line will be. */
  ghost predicate WindowClean(memory: Memory, flat: Memory, lo: Word)
    requires |memory| == |flat|
  {
    forall a: Word :: lo <= a < lo + LINE_LENGTH && 0 <= a < |flat| ==> memory[a] == flat[a]
  }

  function Incoming(memory: Memory, lo: Word): Line
    requires lo >= 0
  {
    Line(lo, Wrap(lo + LINE_LENGTH), FetchLine(memory, lo))
  }

  /** The line that falls out was the only one to cover a. */
  ghost predicate Dropped(lines: seq<Line>, memory: Memory, lo: Word, a: Word)
    requires lines != [] && lo >= 0
  {
    Covers(lines[|lines| - 1], a) && !Resident(Push(lines, NUMBER_OF_LINES, Incoming(memory, lo)), a)
  }

  /** Memory is up to date wherever the line that falls out was the only copy. */
  ghost predicate VictimClean(lines: seq<Line>, memory: Memory, flat: Memory, lo: Word)
    requires |memory| == |flat| && lo >= 0
  {
    |lines| == NUMBER_OF_LINES ==>
      forall a: Word :: 0 <= a < |flat| && Dropped(lines, memory, lo, a) ==> memory[a] == flat[a]
  }

  /** The line just fetched, not the dropped one, is what a full cache writes to memory: that changes nothing. */
  lemma WritingBackIncomingIsIdle(memory: Memory, lo: Word)
    requires lo >= 0
    ensures WriteTruncated(memory, lo, FetchLine(memory, lo)) == memory
  {
  }

  lemma PushMembers(lines: seq<Line>, l: Line)
    requires |lines| <= NUMBER_OF_LINES
    ensures var lines1 := Push(lines, NUMBER_OF_LINES, l);
            && |lines1| <= NUMBER_OF_LINES && l in lines1
            && (forall x :: x in lines1 ==> x == l || x in lines)
            && (forall x :: x in lines ==> x in lines1 || (|lines| == NUMBER_OF_LINES && x == lines[|lines| - 1]))
  {
    var lines1 := Push(lines, NUMBER_OF_LINES, l);
    assert lines1[0] == l;
    forall x | x in lines ensures x in lines1 || (|lines| == NUMBER_OF_LINES && x == lines[|lines| - 1]) {
      var k :| 0 <= k < |lines| && lines[k] == x;
      if k + 1 < NUMBER_OF_LINES { assert lines1[k + 1] == x; }
    }
  }

  lemma MissKeepsCopies(lines: seq<Line>, memory: Memory, flat: Memory, lo: Word)
    requires |memory| == |flat| <= 0x8000_0000 - LINE_LENGTH && |lines| <= NUMBER_OF_LINES
    requires CopiesAgree(lines, flat) && 0 <= lo < |flat|
    ensures CopiesAgree(Push(lines, NUMBER_OF_LINES, Incoming(memory, lo)), flat) <==> WindowClean(memory, flat, lo)
  {
    var l := Incoming(memory, lo);
    var lines1 := Push(lines, NUMBER_OF_LINES, l);
    PushMembers(lines, l);
    if CopiesAgree(lines1, flat) {
      forall a: Word | lo <= a < lo + LINE_LENGTH && 0 <= a < |flat| ensures memory[a] == flat[a] {
        assert Covers(l, a) && At(l, a) == memory[a];
      }
    }
  }

  lemma MissKeepsRest(lines: seq<Line>, memory: Memory, flat: Memory, lo: Word)
    requires |memory| == |flat| && |lines| <= NUMBER_OF_LINES && RestAgrees(lines, memory, flat) && lo >= 0
    ensures RestAgrees(Push(lines, NUMBER_OF_LINES, Incoming(memory, lo)), memory, flat)
            <==> VictimClean(lines, memory, flat, lo)
  {
    var l := Incoming(memory, lo);
    var lines1 := Push(lines, NUMBER_OF_LINES, l);
    PushMembers(lines, l);
    hide Push, CopiesAgree, Shaped, Incoming;
    if VictimClean(lines, memory, flat, lo) {
      forall a: Word | 0 <= a < |flat| && !Resident(lines1, a) ensures memory[a] == flat[a] {
        if x :| x in lines && Covers(x, a) {
          assert x !in lines1;
          assert Dropped(lines, memory, lo, a);
        } else {
          assert !Resident(lines, a);
        }
      }
    }
  }

  /** Exactly when a miss keeps the cache coherent. */
  lemma MissIsCoherent(lines: seq<Line>, memory: Memory, flat: Memory, lo: Word)
    requires Coherent(lines, memory, flat) && 0 <= lo < |flat|
    ensures Coherent(Push(lines, NUMBER_OF_LINES, Incoming(memory, lo)), memory, flat)
       <==> WindowClean(memory, flat, lo) && VictimClean(lines, memory, flat, lo)
  {
    MissKeepsCopies(lines, memory, flat, lo);
    MissKeepsRest(lines, memory, flat, lo);
    PushMembers(lines, Incoming(memory, lo));
    hide Push, CopiesAgree, RestAgrees, WindowClean, VictimClean;
  }

  /** A line fetched at an address holds the next bytes, so the load that missed finds all of its own there. */
  lemma MissedLoadHits(lines: seq<Line>, memory: Memory, i: Instr, regs: Regs)
    requires |lines| <= NUMBER_OF_LINES && |memory| <= 0x8000_0000 - LINE_LENGTH
    requires var addrs := MemoryRead(i, NO_FORWARD, regs); addrs != [] && InRange(memory, addrs)
    ensures var addrs := MemoryRead(i, NO_FORWARD, regs);
            GetAll(Push(lines, NUMBER_OF_LINES, Incoming(memory, addrs[0])), addrs).0.Some?
  {
    var addrs := MemoryRead(i, NO_FORWARD, regs);
    var l := Incoming(memory, addrs[0]);
    var lines1 := Push(lines, NUMBER_OF_LINES, l);
    PushMembers(lines, l);
    GetAllPermutes(lines1, addrs);
    forall k | 0 <= k < |addrs| ensures Resident(lines1, addrs[k]) {
      AddressesAreConsecutive(addrs[0], |addrs|, k, addrs);
      assert Covers(l, addrs[k]);
    }
  }

  lemma AddressesAreConsecutive(base: Word, n: nat, k: nat, addrs: seq<Word>)
    requires 0 <= base < 0x8000_0000 - LINE_LENGTH && n <= 4 && k < n
    requires exists b: Word :: addrs == Addresses(b, n)
    requires |addrs| == n && addrs[0] == base
    ensures addrs[k] == base + k
  {
    var b: Word :| addrs == Addresses(b, n);
    assert addrs[0] == Wrap(b + 0) && addrs[k] == Wrap(b + k);
  }

  // ---------------------------------------------------------------- a store

  ghost predicate Overwrites(a: Word, address: Word, data: seq<Byte>) { address <= a < address + |data| }

  /** A store writes the first line that covers its address. Every other copy of a written byte must hold it already. */
  ghost predicate OthersHold(lines: seq<Line>, i: nat, address: Word, data: seq<Byte>) {
    forall j, a: Word :: 0 <= j < |lines| && j != i && Covers(lines[j], a) && Overwrites(a, address, data) ==>
      At(lines[j], a) == data[a - address]
  }

  lemma OverwrittenAt(l: Line, address: Word, data: seq<Byte>, a: Word)
    requires Covers(l, a) && l.lo <= address && address - l.lo + |data| <= |l.data|
    ensures At(Overwrite(l, address, data), a) == if Overwrites(a, address, data) then data[a - address] else At(l, a)
  {
  }

  /** Exactly when a store into the first line that covers its address keeps the cache coherent. */
  lemma HitIsCoherent(lines: seq<Line>, memory: Memory, flat: Memory, address: Word, data: seq<Byte>)
    requires Coherent(lines, memory, flat) && data != []
    requires 0 <= address && address + |data| <= |flat| && WriteTo(lines, address, data).Some?
    ensures Coherent(WriteTo(lines, address, data).value, memory, WriteTruncated(flat, address, data))
       <==> OthersHold(lines, Find(lines, address), address, data)
  {
    var i := Find(lines, address);
    var lines1 := WriteTo(lines, address, data).value;
    var flat1 := WriteTruncated(flat, address, data);
    if Coherent(lines1, memory, flat1) {
      forall j, a: Word | 0 <= j < |lines| && j != i && Covers(lines[j], a) && Overwrites(a, address, data)
        ensures At(lines[j], a) == data[a - address]
      {
        assert lines1[j] in lines1;
      }
    }
    if OthersHold(lines, i, address, data) {
      CopiesStayUpToDate(lines, flat, i, address, data);
      SameRangesSameResidents(lines, lines1);
      forall a: Word | 0 <= a < |flat| && !Resident(lines1, a) ensures memory[a] == flat1[a] {
        assert lines[i] in lines && !Covers(lines[i], a);
      }
      forall l | l in lines1 ensures Shaped(l) {
        var j :| 0 <= j < |lines1| && lines1[j] == l;
        assert lines[j] in lines;
      }
    }
  }

  lemma CopiesStayUpToDate(lines: seq<Line>, flat: Memory, i: nat, address: Word, data: seq<Byte>)
    requires CopiesAgree(lines, flat) && i < |lines| && OthersHold(lines, i, address, data)
    requires lines[i].lo <= address && address - lines[i].lo + |data| <= |lines[i].data|
    ensures CopiesAgree(lines[i := Overwrite(lines[i], address, data)], WriteTruncated(flat, address, data))
  {
    var lines1 := lines[i := Overwrite(lines[i], address, data)];
    var flat1 := WriteTruncated(flat, address, data);
    forall l, a: Word | l in lines1 && Covers(l, a) && 0 <= a < |flat| ensures At(l, a) == flat1[a] {
      var j :| 0 <= j < |lines1| && lines1[j] == l;
      assert lines[j] in lines;
      assert Covers(lines[j], a) && At(lines[j], a) == flat[a];
      assert flat1[a] == if Overwrites(a, address, data) then data[a - address] else flat[a];
      if j == i {
        OverwrittenAt(lines[i], address, data, a);
      } else if Overwrites(a, address, data) {
        assert At(lines[j], a) == data[a - address];
      }
    }
  }

  lemma SameRangesSameResidents(a: seq<Line>, b: seq<Line>)
    requires |a| == |b| && forall j :: 0 <= j < |a| ==> a[j].lo == b[j].lo && a[j].hi == b[j].hi
    ensures forall x: Word :: Resident(a, x) <==> Resident(b, x)
  {
    forall x: Word ensures Resident(a, x) <==> Resident(b, x) {
      if l :| l in a && Covers(l, x) {
        var j :| 0 <= j < |a| && a[j] == l;
        assert b[j] in b && Covers(b[j], x);
      }
      if l :| l in b && Covers(l, x) {
        var j :| 0 <= j < |b| && b[j] == l;
        assert a[j] in a && Covers(a[j], x);
      }
    }
  }

  /** A store with an address outside the cache goes past it. Every resident copy must hold the new byte already. */
  ghost predicate AllHold(lines: seq<Line>, address: Word, data: seq<Byte>) {
    forall l, a: Word :: l in lines && Covers(l, a) && Overwrites(a, address, data) ==> At(l, a) == data[a - address]
  }

  /** Exactly when a store past the cache keeps it coherent. */
  lemma BypassIsCoherent(lines: seq<Line>, memory: Memory, flat: Memory, address: Word, data: seq<Byte>)
    requires Coherent(lines, memory, flat)
    requires 0 <= address && address + |data| <= |flat|
    ensures Coherent(lines, WriteTruncated(memory, address, data), WriteTruncated(flat, address, data))
       <==> AllHold(lines, address, data)
  {
  }
}
