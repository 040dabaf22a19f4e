/** The branch target buffer of MVP-5 is a bounded map with first-in first-out eviction (proc/mvp5/btb.go). */
module BranchTargets {
  import opened Words
  import opened Pipeline

  function Pcs(btb: seq<Target>): (pcs: seq<Word>)
    ensures |pcs| == |btb| && forall k :: 0 <= k < |pcs| ==> pcs[k] == btb[k].pc
  {
    seq(|btb|, k requires 0 <= k < |btb| => btb[k].pc)
  }

  ghost predicate Unique(pcs: seq<Word>) { forall i, j :: 0 <= i < j < |pcs| ==> pcs[i] != pcs[j] }

  predicate Resident(btb: seq<Target>, pc: Word) { exists k :: 0 <= k < |btb| && btb[k].pc == pc }

  // ---------------------------------------------------------------- histories

  /** The buffer after a history of additions. */
  function BufferAfter(adds: seq<Target>): seq<Target> {
    if adds == [] then [] else
      var last := adds[|adds| - 1];
      Remember(BufferAfter(adds[..|adds| - 1]), last.pc, last.dest)
  }

  function LastFew(pcs: seq<Word>): seq<Word> {
    if |pcs| <= 4 then pcs else pcs[|pcs| - 4..]
  }

  /** The program counters in the order they were inserted: an addition whose program counter is among the last four
      insertions inserts nothing. */
  function Insertions(adds: seq<Target>): seq<Word> {
    if adds == [] then [] else
      var before, pc := Insertions(adds[..|adds| - 1]), adds[|adds| - 1].pc;
      if pc in LastFew(before) then before else before + [pc]
  }

  /** The target added last for a program counter. */
  function Latest(adds: seq<Target>, pc: Word): Option<Word> {
    if adds == [] then None
    else if adds[|adds| - 1].pc == pc then Some(adds[|adds| - 1].dest)
    else Latest(adds[..|adds| - 1], pc)
  }

  lemma {:induction false} ReplaceOne(btb: seq<Target>, pc: Word, dest: Word, k: nat)
    requires k < |btb| && btb[k].pc == pc && forall j :: 0 <= j < k ==> btb[j].pc != pc
    ensures Replace(btb, pc, dest) == btb[k := Target(pc, dest)]
  {
    if k > 0 {
      ReplaceOne(btb[1..], pc, dest, k - 1);
      assert btb == [btb[0]] + btb[1..];
    }
  }

  lemma ReplaceKeeps(btb: seq<Target>, pc: Word, dest: Word)
    requires Resident(btb, pc) && Unique(Pcs(btb))
    ensures Pcs(Replace(btb, pc, dest)) == Pcs(btb)
    ensures forall k :: 0 <= k < |btb| ==> Replace(btb, pc, dest)[k].dest == if btb[k].pc == pc then dest
            else btb[k].dest
  {
    var k :| 0 <= k < |btb| && btb[k].pc == pc;
    forall j | 0 <= j < |btb| && j != k ensures btb[j].pc != pc { assert Pcs(btb)[j] != Pcs(btb)[k]; }
    ReplaceOne(btb, pc, dest, k);
  }

  /** The buffer holds the last four insertions, each with the target added last. */
  ghost predicate IsBoundedMap(btb: seq<Target>, adds: seq<Target>) {
    && Pcs(btb) == LastFew(Insertions(adds))
    && Unique(Pcs(btb)) && |btb| <= BTB_LENGTH
    && forall k :: 0 <= k < |btb| ==> Latest(adds, btb[k].pc) == Some(btb[k].dest)
  }

  lemma RememberKeeps(btb: seq<Target>, adds: seq<Target>, t: Target)
    requires IsBoundedMap(btb, adds)
    ensures IsBoundedMap(Remember(btb, t.pc, t.dest), adds + [t])
  {
    var btb1, adds1 := Remember(btb, t.pc, t.dest), adds + [t];
    assert adds1[..|adds|] == adds && adds1[|adds1| - 1] == t;
    assert t.pc in Pcs(btb) <==> Resident(btb, t.pc) by {
      if k :| 0 <= k < |btb| && btb[k].pc == t.pc { assert Pcs(btb)[k] == t.pc; }
    }
    if Resident(btb, t.pc) {
      ReplaceKeeps(btb, t.pc, t.dest);
      forall k | 0 <= k < |btb1| ensures Latest(adds1, btb1[k].pc) == Some(btb1[k].dest) {
        assert btb1[k].pc == Pcs(btb1)[k] == Pcs(btb)[k] == btb[k].pc;
      }
    } else {
      Inserted(btb, adds, t);
    }
  }

  lemma LastFewGrows(pcs: seq<Word>, pc: Word)
    ensures LastFew(pcs + [pc]) == if |LastFew(pcs)| != BTB_LENGTH then LastFew(pcs) + [pc]
            else LastFew(pcs)[1..] + [pc]
  {
  }

  lemma PcsOfParts(btb: seq<Target>, t: Target)
    ensures Pcs(btb + [t]) == Pcs(btb) + [t.pc]
    ensures btb != [] ==> Pcs(btb[1..] + [t]) == Pcs(btb)[1..] + [t.pc]
  {
  }

  lemma UniqueWithMore(pcs: seq<Word>, pc: Word)
    requires Unique(pcs) && pc !in pcs
    ensures Unique(pcs + [pc]) && (pcs != [] ==> Unique(pcs[1..] + [pc]))
  {
  }

  lemma LatestWithMore(btb: seq<Target>, adds: seq<Target>, t: Target, btb1: seq<Target>)
    requires forall k :: 0 <= k < |btb| ==> btb[k].pc != t.pc && Latest(adds, btb[k].pc) == Some(btb[k].dest)
    requires forall x :: x in btb1 ==> x in btb || x == t
    ensures forall k :: 0 <= k < |btb1| ==> Latest(adds + [t], btb1[k].pc) == Some(btb1[k].dest)
  {
    assert (adds + [t])[..|adds|] == adds;
    forall k | 0 <= k < |btb1| ensures Latest(adds + [t], btb1[k].pc) == Some(btb1[k].dest) {
      assert btb1[k] in btb1;
    }
  }

  lemma Inserted(btb: seq<Target>, adds: seq<Target>, t: Target)
    requires IsBoundedMap(btb, adds) && t.pc !in Pcs(btb) && !Resident(btb, t.pc)
    ensures IsBoundedMap(Remember(btb, t.pc, t.dest), adds + [t])
  {
    hide Latest, Insertions, LastFew, Unique, Pcs;
    var btb1 := Remember(btb, t.pc, t.dest);
    PcsOfParts(btb, t);
    LastFewGrows(Insertions(adds), t.pc);
    UniqueWithMore(Pcs(btb), t.pc);
    LatestWithMore(btb, adds, t, btb1);
    OneMoreInsertion(adds, t);
  }

  lemma OneMoreInsertion(adds: seq<Target>, t: Target)
    ensures Insertions(adds + [t])
         == if t.pc in LastFew(Insertions(adds)) then Insertions(adds) else Insertions(adds) + [t.pc]
  {
    assert (adds + [t])[..|adds|] == adds;
  }

  lemma NothingIsBoundedMap()
    ensures IsBoundedMap([], [])
  {
  }

  /** For every history of additions: unique program counters, at most four of them, evicted oldest insertion first
      whether or not they were added again since, and the latest target for each. */
  lemma {:induction false} BufferIsBoundedMap(adds: seq<Target>)
    ensures IsBoundedMap(BufferAfter(adds), adds)
  {
    hide IsBoundedMap;
    if adds == [] {
      NothingIsBoundedMap();
    } else {
      var last := |adds| - 1;
      BufferIsBoundedMap(adds[..last]);
      RememberKeeps(BufferAfter(adds[..last]), adds[..last], adds[last]);
      hide Remember;
      assert adds[..last] + [adds[last]] == adds;
    }
  }

  lemma {:induction false} LookupFinds(btb: seq<Target>, pc: Word)
    ensures match Lookup(btb, pc)
            case None => !Resident(btb, pc)
            case Some(dest) => exists k :: 0 <= k < |btb| && btb[k] == Target(pc, dest)
  {
    if btb != [] {
      LookupFinds(btb[1..], pc);
      if btb[0].pc == pc {
        assert btb[0] == Target(pc, btb[0].dest);
      } else if Lookup(btb, pc).Some? {
        var k :| 0 <= k < |btb[1..]| && btb[1..][k] == Target(pc, Lookup(btb, pc).value);
        assert btb[k + 1] == Target(pc, Lookup(btb, pc).value);
      }
    }
  }

  /** `get` after a history: the latest target of a program counter among the last four insertions, and nothing for any
      other. */
  lemma GetIsLatest(adds: seq<Target>, pc: Word)
    ensures Lookup(BufferAfter(adds), pc) == if pc in LastFew(Insertions(adds)) then Latest(adds, pc) else None
  {
    BufferIsBoundedMap(adds);
    LookupFinds(BufferAfter(adds), pc);
    var btb := BufferAfter(adds);
    if pc in Pcs(btb) {
      var k :| 0 <= k < |btb| && Pcs(btb)[k] == pc;
      assert btb[k].pc == pc;
    }
  }
}
