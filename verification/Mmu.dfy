/** The memory management unit between a core and its memory (proc/mvp3/mmu.go, copied in MVP-4 and MVP-5). */
module Mmu {
  import opened Words
  import opened Cache

  const LINE_LENGTH := 64
  const NUMBER_OF_LINES := 16
  /** From MVP-4 on; MVP-3 adds the access to the L1 to it. */
  const CYCLES_MEMORY_ACCESS := 50

  type Memory = seq<Byte>

  /** The bytes from a on, with zeros beyond the end of memory. */
  function FetchLine(memory: Memory, a: Word): (data: seq<Byte>)
    requires a >= 0
    ensures |data| == LINE_LENGTH
  {
    seq(LINE_LENGTH, i requires 0 <= i < LINE_LENGTH => if a + i < |memory| then memory[a + i] else 0)
  }

  /** Writes data from a on and stops at the end of memory. */
  function WriteTruncated(memory: Memory, a: int, data: seq<Byte>): (m: Memory)
    ensures |m| == |memory|
    ensures forall k :: 0 <= k < |m| ==> m[k] == if a <= k < a + |data| then data[k - a] else memory[k]
  {
    seq(|memory|, k requires 0 <= k < |memory| => if a <= k < a + |data| then data[k - a] else memory[k])
  }

  /** What a load leaves behind. */
  datatype Loaded = Loaded(bytes: seq<Byte>, lines: seq<Line>, memory: Memory)

  /** A line starts at the missed address. When the cache was full the line just fetched, not the one
      dropped, is written to memory. None where the source panics. */
  function LoadMiss(lines: seq<Line>, memory: Memory, addrs: seq<Word>): Option<Loaded>
    requires |addrs| > 0
  {
    if addrs[0] < 0 then None else
      var data := FetchLine(memory, addrs[0]);
      var memory1 := if |lines| + 1 > NUMBER_OF_LINES then WriteTruncated(memory, addrs[0], data) else memory;
      var (bytes, lines1) := GetAll(Push(lines, NUMBER_OF_LINES, Line(addrs[0], Wrap(addrs[0] + LINE_LENGTH), data)),
                                    addrs);
      if bytes.None? then None else Some(Loaded(bytes.value, lines1, memory1))
  }

  function LoadThrough(lines: seq<Line>, memory: Memory, addrs: seq<Word>): Option<Loaded>
    requires |addrs| > 0
  {
    var (hit, lines1) := GetAll(lines, addrs);
    if hit.Some? then Some(Loaded(hit.value, lines1, memory)) else LoadMiss(lines1, memory, addrs)
  }

  /** The order in which Go walks the map of changed addresses: any permutation of them. */
  function Arrange(order: seq<Word>, addrs: seq<Word>): (s: seq<Word>)
    ensures multiset(s) == multiset(addrs)
  {
    if multiset(order) == multiset(addrs) then order else addrs
  }

  /** None where the source panics. */
  function WriteMemory(memory: Memory, a: Word, data: seq<Byte>): (m: Option<Memory>)
    ensures m.Some? <==> 0 <= a && a + |data| <= |memory|
  {
    if 0 <= a && a + |data| <= |memory| then Some(WriteTruncated(memory, a, data)) else None
  }

  /** Writes every line back, front to back. */
  function Flushed(lines: seq<Line>, memory: Memory): (m: Memory)
    ensures |m| == |memory|
  {
    if lines == [] then memory else Flushed(lines[1..], WriteTruncated(memory, lines[0].lo, lines[0].data))
  }
}
