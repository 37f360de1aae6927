/** What misses, evictions and write-backs add up to over every trace. */
module CacheConservation {
  import opened Wrappers
  import opened CacheAddress
  import opened CacheState
  import opened CacheLru

  // ---------------------------------------------------------------- resident and dirty blocks

  predicate HoldsDirty(s: Set, tag: u64) {
    exists j :: 0 <= j < |s| && s[j].valid && s[j].tag == tag && s[j].dirty
  }

  ghost function ResidentLines(c: Cache): (r: set<Line>)
    ensures forall l: Line :: l in r <==> l.index < |c.sets| && Holds(c.sets[l.index], l.tag)
  {
    set i, j | 0 <= i < |c.sets| && 0 <= j < |c.sets[i]| && c.sets[i][j].valid :: Line(i, c.sets[i][j].tag)
  }

  ghost function DirtyLines(c: Cache): (r: set<Line>)
    ensures forall l: Line :: l in r <==> l.index < |c.sets| && HoldsDirty(c.sets[l.index], l.tag)
  {
    set i, j | 0 <= i < |c.sets| && 0 <= j < |c.sets[i]| && c.sets[i][j].valid && c.sets[i][j].dirty ::
      Line(i, c.sets[i][j].tag)
  }

  /** No set holds a block twice. */
  ghost predicate Coherent(c: Cache) {
    Sized(c) && forall i :: 0 <= i < |c.sets| ==> OncePerSet(c.sets[i])
  }

  /** The block an evicting access drops. */
  function VictimLine(c: Cache, a: Access): Line
    requires Sized(c)
  {
    var k := Slot(c, a);
    var i := GetIndex(a.addr, c.geo);
    Line(i, c.sets[i][k].tag)
  }

  lemma HoldsDirtyAfter(s: Set, k: nat, b: Block, y: u64)
    requires k < |s| && b.valid && OncePerSet(s)
    ensures HoldsDirty(s[k := b], y) <==>
      (y == b.tag && b.dirty) || (HoldsDirty(s, y) && !(s[k].valid && s[k].tag == y))
  {
    var t := s[k := b];
    if HoldsDirty(t, y) {
      var j :| 0 <= j < |t| && t[j].valid && t[j].tag == y && t[j].dirty;
      assert j != k ==> s[j].valid && s[j].tag == y && s[j].dirty;
    }
    if y == b.tag && b.dirty {
      assert t[k].valid && t[k].tag == y && t[k].dirty;
    } else if HoldsDirty(s, y) && !(s[k].valid && s[k].tag == y) {
      var j :| 0 <= j < |s| && s[j].valid && s[j].tag == y && s[j].dirty;
      assert t[j].valid && t[j].tag == y && t[j].dirty;
    }
  }

  /** The slot an access uses: it holds the block on a hit, an invalid block or the victim on a miss. */
  lemma SlotHolds(c: Cache, a: Access)
    requires Coherent(c)
    ensures var l, k := LineOf(a, c.geo), Slot(c, a);
            l.index < |c.sets| && k < |c.sets[l.index]| &&
            var s := c.sets[l.index];
            && (Hit(c, a) ==> Holds(s, l.tag) && s[k].valid && s[k].tag == l.tag)
            && (!Hit(c, a) ==> !Holds(s, l.tag) && (s[k].valid <==> Evicts(c, a)))
            && (Evicts(c, a) ==> !Hit(c, a))
            && VictimLine(c, a) == Line(l.index, s[k].tag)
  {
    AddressSplit(a.addr, c.geo);
    HitIsHolds(c, a);
  }

  /** What an access does to the resident blocks. */
  lemma StepResidents(c: Cache, a: Access, m: Line)
    requires Coherent(c)
    ensures var l, d := LineOf(a, c.geo), Step(c, a);
            && Coherent(d)
            && (Hit(c, a) <==> l in ResidentLines(c))
            && (m in ResidentLines(d) <==>
                  m == l || (m in ResidentLines(c) && !(Evicts(c, a) && m == VictimLine(c, a))))
  {
    hide Step, Slot, Hit, Evicts, VictimLine, Holds, Chosen;
    var l, d := LineOf(a, c.geo), Step(c, a);
    StepWrites(c, a);
    SlotHolds(c, a);
    var s, k := c.sets[l.index], Slot(c, a);
    HoldsAfter(s, k, d.sets[l.index][k], m.tag);
    AbsentElsewhere(s, k, l.tag);
    StepKeepsOnce(s, k, d.sets[l.index][k]);
  }

  lemma AbsentElsewhere(s: Set, k: nat, tag: u64)
    requires k < |s| && OncePerSet(s) && (Holds(s, tag) ==> s[k].valid && s[k].tag == tag)
    ensures forall j :: 0 <= j < |s| && j != k && s[j].valid ==> s[j].tag != tag
  {
  }

  /** What an access does to the resident and dirty blocks. */
  lemma StepLines(c: Cache, a: Access, m: Line)
    requires Coherent(c)
    ensures var l, d := LineOf(a, c.geo), Step(c, a);
            && Coherent(d)
            && (Hit(c, a) <==> l in ResidentLines(c))
            && (m in ResidentLines(d) <==>
                  m == l || (m in ResidentLines(c) && !(Evicts(c, a) && m == VictimLine(c, a))))
            && (m in DirtyLines(d) <==>
                  if m == l then a.kind.Write? || (Hit(c, a) && m in DirtyLines(c))
                  else m in DirtyLines(c) && !(Evicts(c, a) && m == VictimLine(c, a)))
  {
    hide Step, Slot, Hit, Evicts, VictimLine, Holds, Chosen;
    var l, d := LineOf(a, c.geo), Step(c, a);
    StepResidents(c, a, m);
    StepWrites(c, a);
    SlotHolds(c, a);
    var s, k := c.sets[l.index], Slot(c, a);
    HoldsDirtyAfter(s, k, d.sets[l.index][k], m.tag);
    if Hit(c, a) {
      DirtyIsBit(s, k);
    }
  }

  lemma StepKeepsOnce(s: Set, k: nat, b: Block)
    requires k < |s| && OncePerSet(s) && b.valid
    requires forall j :: 0 <= j < |s| && j != k && s[j].valid ==> s[j].tag != b.tag
    ensures OncePerSet(s[k := b])
  {
  }

  lemma DirtyIsBit(s: Set, k: nat)
    requires k < |s| && OncePerSet(s) && s[k].valid
    ensures HoldsDirty(s, s[k].tag) <==> s[k].dirty
  {
  }

  lemma VictimIsDirty(c: Cache, a: Access)
    requires Coherent(c) && Evicts(c, a)
    ensures var k := Slot(c, a);
            var v := VictimLine(c, a);
            && v in ResidentLines(c) && v != LineOf(a, c.geo)
            && (v in DirtyLines(c) <==> c.sets[v.index][k].dirty)
  {
    AddressSplit(a.addr, c.geo);
    HitIsHolds(c, a);
    AddressSplit(a.addr, c.geo);
    DirtyIsBit(c.sets[LineOf(a, c.geo).index], Slot(c, a));
  }

  // ---------------------------------------------------------------- counts over a trace

  /** The misses that found no invalid block. */
  function Evictions(c: Cache, trace: seq<Access>): nat
    requires Sized(c)
  {
    if trace == [] then 0
    else
      var before, a := trace[..|trace| - 1], trace[|trace| - 1];
      Evictions(c, before) + if Evicts(Run(c, before), a) then 1 else 0
  }

  /** The writes to a block that was not resident and dirty. */
  ghost function Soilings(c: Cache, trace: seq<Access>): nat
    requires Sized(c)
  {
    if trace == [] then 0
    else
      var before, a := trace[..|trace| - 1], trace[|trace| - 1];
      Soilings(c, before) + if a.kind.Write? && LineOf(a, c.geo) !in DirtyLines(Run(c, before)) then 1 else 0
  }

  /** The block has been written since the miss that last brought it in. */
  function WrittenSinceFill(c: Cache, trace: seq<Access>, l: Line): bool
    requires Sized(c)
  {
    if trace == [] then false
    else
      var before, a := trace[..|trace| - 1], trace[|trace| - 1];
      if LineOf(a, c.geo) == l
      then a.kind.Write? || (Hit(Run(c, before), a) && WrittenSinceFill(c, before, l))
      else WrittenSinceFill(c, before, l)
  }

  lemma FreshIsClean(c: Cache)
    requires Fresh(c)
    ensures Coherent(c) && ResidentLines(c) == {} && DirtyLines(c) == {}
  {
    forall i, tag | 0 <= i < |c.sets| ensures !Holds(c.sets[i], tag) && !HoldsDirty(c.sets[i], tag) {
    }
  }

  /** No trace makes a set hold a block twice. */
  lemma {:induction false} RunCoherent(c: Cache, trace: seq<Access>)
    requires Fresh(c)
    ensures Coherent(Run(c, trace))
  {
    if trace == [] {
      FreshIsClean(c);
    } else {
      RunCoherent(c, trace[..|trace| - 1]);
      StepLines(Run(c, trace[..|trace| - 1]), trace[|trace| - 1], Line(0, 0));
    }
  }

  /** A resident block is dirty exactly when it has been written since its last fill. */
  lemma {:induction false} DirtyIffWritten(c: Cache, trace: seq<Access>, l: Line)
    requires Fresh(c) && l in ResidentLines(Run(c, trace))
    ensures l in DirtyLines(Run(c, trace)) <==> WrittenSinceFill(c, trace, l)
  {
    hide Step, Hit, Evicts;
    if trace == [] {
      FreshIsClean(c);
    } else {
      var before, a := trace[..|trace| - 1], trace[|trace| - 1];
      RunCoherent(c, before);
      StepLines(Run(c, before), a, l);
      if l in ResidentLines(Run(c, before)) {
        DirtyIffWritten(c, before, l);
      }
    }
  }

  /** The blocks an access drops: its victim, if it has one. */
  ghost function Gone(c: Cache, a: Access): set<Line>
    requires Sized(c)
  {
    if Evicts(c, a) then {VictimLine(c, a)} else {}
  }

  /** The resident and dirty blocks after one access. */
  lemma StepSets(c: Cache, a: Access)
    requires Coherent(c)
    ensures var l, d := LineOf(a, c.geo), Step(c, a);
            && ResidentLines(d) == ResidentLines(c) - Gone(c, a) + {l}
            && DirtyLines(d) == DirtyLines(c) - Gone(c, a) + (if a.kind.Write? then {l} else {})
            && (Hit(c, a) <==> l in ResidentLines(c))
  {
    hide Step, Hit, VictimLine;
    var l, d := LineOf(a, c.geo), Step(c, a);
    if Evicts(c, a) {
      VictimIsDirty(c, a);
    }
    StepLines(c, a, l);
    DirtyIsResident(c, l);
    forall m: Line
      ensures m in ResidentLines(d) <==> m in ResidentLines(c) - Gone(c, a) + {l}
      ensures m in DirtyLines(d) <==> m in DirtyLines(c) - Gone(c, a) + if a.kind.Write? then {l} else {}
    {
      StepLines(c, a, m);
    }
  }

  /** Dropping `v` and adding `l`, each if asked to. */
  ghost function Swapped(a: set<Line>, drop: bool, v: Line, add: bool, l: Line): set<Line> {
    a - (if drop then {v} else {}) + (if add then {l} else {})
  }

  lemma SwapSize(a: set<Line>, drop: bool, v: Line, add: bool, l: Line)
    requires drop ==> v != l
    ensures |Swapped(a, drop, v, add, l)| + One(drop && v in a) == |a| + One(add && l !in a)
  {
    var b := if drop then a - {v} else a;
    assert |b| + One(drop && v in a) == |a|;
    assert Swapped(a, drop, v, add, l) == if add then b + {l} else b;
    if add {
      assert l in b ==> b + {l} == b;
      assert l !in b ==> |b + {l}| == |b| + 1;
    }
  }

  /** What one access adds to the counters. */
  lemma StepStats(c: Cache, a: Access)
    requires Sized(c)
    ensures var d, miss, write := Step(c, a), One(!Hit(c, a)), One(a.kind.Write?);
            && d.stats.readMisses + d.stats.writeMisses == c.stats.readMisses + c.stats.writeMisses + miss
            && d.stats.writeCount == c.stats.writeCount + write
            && d.stats.writeBacks
                 == c.stats.writeBacks + One(Evicts(c, a) && c.sets[VictimLine(c, a).index][Slot(c, a)].dirty)
  {
  }

  lemma StepResidentCount(c: Cache, a: Access)
    requires Coherent(c)
    ensures |ResidentLines(Step(c, a))| + One(Evicts(c, a)) == |ResidentLines(c)| + One(!Hit(c, a))
  {
    hide Hit, VictimLine, ResidentLines, DirtyLines, Slot, Step, Evicts;
    StepSets(c, a);
    var l, v := LineOf(a, c.geo), VictimLine(c, a);
    if Evicts(c, a) {
      VictimIsDirty(c, a);
    }
    SwapSize(ResidentLines(c), Evicts(c, a), v, true, l);
    assert ResidentLines(Step(c, a)) == Swapped(ResidentLines(c), Evicts(c, a), v, true, l);
  }

  lemma StepDirtyCount(c: Cache, a: Access)
    requires Coherent(c)
    ensures var l, d, dirty := LineOf(a, c.geo), Step(c, a), DirtyLines(c);
            d.stats.writeBacks + |DirtyLines(d)| == c.stats.writeBacks + |dirty| + One(a.kind.Write? && l !in dirty)
  {
    hide Hit, VictimLine, ResidentLines, DirtyLines, Slot, Step, Evicts;
    StepSets(c, a);
    StepStats(c, a);
    var l, v := LineOf(a, c.geo), VictimLine(c, a);
    if Evicts(c, a) {
      VictimIsDirty(c, a);
    }
    SwapSize(DirtyLines(c), Evicts(c, a), v, a.kind.Write?, l);
    assert DirtyLines(Step(c, a)) == Swapped(DirtyLines(c), Evicts(c, a), v, a.kind.Write?, l);
  }

  lemma DirtyIsResident(c: Cache, m: Line)
    ensures m in DirtyLines(c) ==> m in ResidentLines(c)
  {
    if m in DirtyLines(c) {
      var s := c.sets[m.index];
      var j :| 0 <= j < |s| && s[j].valid && s[j].tag == m.tag && s[j].dirty;
      assert Holds(s, m.tag);
    }
  }

  // ---------------------------------------------------------------- lines and blocks

  /** The valid blocks of a set; only the dirty ones, if `dirty`. */
  function Blocks(s: Set, dirty: bool): nat {
    if s == [] then 0 else (if s[0].valid && (dirty ==> s[0].dirty) then 1 else 0) + Blocks(s[1..], dirty)
  }

  function AllBlocks(sets: seq<Set>, dirty: bool): nat {
    if sets == [] then 0 else AllBlocks(sets[..|sets| - 1], dirty) + Blocks(sets[|sets| - 1], dirty)
  }

  predicate HoldsAs(s: Set, tag: u64, dirty: bool) {
    if dirty then HoldsDirty(s, tag) else Holds(s, tag)
  }

  /** The lines that the blocks of set number `i` hold. */
  ghost function LinesOf(s: Set, dirty: bool, i: nat): (r: set<Line>)
    ensures forall l: Line :: l in r <==> l.index == i && HoldsAs(s, l.tag, dirty)
  {
    set j | 0 <= j < |s| && s[j].valid && (dirty ==> s[j].dirty) :: Line(i, s[j].tag)
  }

  ghost function AllLines(sets: seq<Set>, dirty: bool): (r: set<Line>)
    ensures forall l: Line :: l in r <==> l.index < |sets| && HoldsAs(sets[l.index], l.tag, dirty)
  {
    if sets == [] then {} else AllLines(sets[..|sets| - 1], dirty) + LinesOf(sets[|sets| - 1], dirty, |sets| - 1)
  }

  /** The tags that a set holds, but for its first block. */
  lemma HoldsRest(s: Set, tag: u64, dirty: bool)
    requires s != [] && OncePerSet(s)
    ensures OncePerSet(s[1..])
    ensures var first := s[0].valid && (dirty ==> s[0].dirty) && s[0].tag == tag;
      && (HoldsAs(s, tag, dirty) <==> first || HoldsAs(s[1..], tag, dirty))
      && !(first && HoldsAs(s[1..], tag, dirty))
  {
    var t := s[1..];
    assert forall j :: 0 <= j < |t| ==> t[j] == s[j + 1];
    if HoldsAs(s, tag, dirty) {
      var j :| 0 <= j < |s| && s[j].valid && (dirty ==> s[j].dirty) && s[j].tag == tag;
      assert j > 0 ==> t[j - 1] == s[j];
    }
  }

  lemma {:induction false} LinesPerBlock(s: Set, dirty: bool, i: nat)
    requires OncePerSet(s)
    ensures |LinesOf(s, dirty, i)| == Blocks(s, dirty)
  {
    hide LinesOf, HoldsAs, OncePerSet;
    if s == [] {
      EmptySetHoldsNothing(dirty);
      assert LinesOf(s, dirty, i) == {};
    } else {
      HoldsRest(s, s[0].tag, dirty);
      LinesPerBlock(s[1..], dirty, i);
      var first := if s[0].valid && (dirty ==> s[0].dirty) then {Line(i, s[0].tag)} else {};
      forall l: Line ensures l in LinesOf(s, dirty, i) <==> l in first || l in LinesOf(s[1..], dirty, i) {
        HoldsRest(s, l.tag, dirty);
      }
      assert LinesOf(s, dirty, i) == first + LinesOf(s[1..], dirty, i);
    }
  }

  lemma EmptySetHoldsNothing(dirty: bool)
    ensures forall tag :: !HoldsAs([], tag, dirty)
  {
  }

  lemma {:induction false} LinesPerSet(sets: seq<Set>, dirty: bool)
    requires forall i :: 0 <= i < |sets| ==> OncePerSet(sets[i])
    ensures |AllLines(sets, dirty)| == AllBlocks(sets, dirty)
  {
    hide LinesOf, HoldsAs, OncePerSet;
    if sets != [] {
      var n := |sets| - 1;
      LinesPerSet(sets[..n], dirty);
      LinesPerBlock(sets[n], dirty, n);
      assert AllLines(sets[..n], dirty) !! LinesOf(sets[n], dirty, n);
    }
  }

  /** No two blocks of a coherent cache hold the same line, so lines are counted by blocks. */
  lemma LinesAreBlocks(c: Cache)
    requires Coherent(c)
    ensures |ResidentLines(c)| == AllBlocks(c.sets, false) && |DirtyLines(c)| == AllBlocks(c.sets, true)
  {
    hide ResidentLines, DirtyLines, AllLines, AllBlocks, Holds, HoldsDirty, OncePerSet, Sized;
    LinesPerSet(c.sets, false);
    LinesPerSet(c.sets, true);
    assert ResidentLines(c) == AllLines(c.sets, false);
    assert DirtyLines(c) == AllLines(c.sets, true);
  }

  // ---------------------------------------------------------------- the sums

  lemma {:induction false} LineSums(c: Cache, trace: seq<Access>)
    requires Fresh(c)
    ensures var d := Run(c, trace);
            && d.stats.readMisses + d.stats.writeMisses == |ResidentLines(d)| + Evictions(c, trace)
            && d.stats.writeBacks + |DirtyLines(d)| == Soilings(c, trace) <= d.stats.writeCount
            && d.stats.writeBacks <= Evictions(c, trace)
  {
    hide Step, Hit, Evicts;
    if trace == [] {
      FreshIsClean(c);
    } else {
      var before, a := trace[..|trace| - 1], trace[|trace| - 1];
      LineSums(c, before);
      RunCoherent(c, before);
      StepStats(Run(c, before), a);
      StepResidentCount(Run(c, before), a);
      StepDirtyCount(Run(c, before), a);
    }
  }

  /** Over every trace: misses are valid blocks plus evictions; write-backs plus dirty blocks are the writes
      to clean or absent blocks; and a write-back is an eviction. */
  lemma {:induction false} Conservation(c: Cache, trace: seq<Access>)
    requires Fresh(c)
    ensures var d := Run(c, trace);
            && d.stats.readMisses + d.stats.writeMisses == AllBlocks(d.sets, false) + Evictions(c, trace)
            && d.stats.writeBacks + AllBlocks(d.sets, true) == Soilings(c, trace) <= d.stats.writeCount
            && d.stats.writeBacks <= Evictions(c, trace)
  {
    hide AllBlocks, Evictions, Soilings, Run, Coherent, ResidentLines, DirtyLines;
    LineSums(c, trace);
    RunCoherent(c, trace);
    LinesAreBlocks(Run(c, trace));
  }

  /** A block is resident exactly when it is among the 2^S most recently used of its set. */
  lemma ResidentIsRecent(c: Cache, trace: seq<Access>, l: Line)
    requires Fresh(c) && |trace| < WORD
    ensures l in ResidentLines(Run(c, trace)) <==>
      l.index < NumSets(c.geo) && l.tag in Top(Recency(trace, c.geo, l.index), Ways(c.geo))
  {
    LruContents(c, trace);
    hide Recent, Recency, Run, Holds, Top;
    var d := Run(c, trace);
    if l.index < |d.sets| {
      HoldsIsTop(d.sets[l.index], trace, c.geo, l.index, l.tag);
    }
  }
}
