/** Every counter of the cache, from the trace alone: which accesses it counts, position by position. */
module CacheCounts {
  import opened Wrappers
  import opened CacheAddress
  import opened CacheState
  import opened CacheLru
  import opened CacheConservation

  // ---------------------------------------------------------------- what the trace says

  /** The block was never used, or 2^S other blocks of its set have been used since. */
  predicate Dropped(trace: seq<Access>, g: Geometry, l: Line)
    requires g.Legal()
  {
    LastUse(trace, g, l) == 0 || |UsedSince(trace, g, l)| >= Ways(g)
  }

  predicate MissAt(trace: seq<Access>, g: Geometry, i: nat)
    requires g.Legal() && i < |trace|
  {
    Dropped(trace[..i], g, LineOf(trace[i], g))
  }

  /** The block has been written since it was last brought in. */
  predicate Unsaved(trace: seq<Access>, g: Geometry, l: Line)
    requires g.Legal()
  {
    trace != [] &&
    var before, a := trace[..|trace| - 1], trace[|trace| - 1];
    if LineOf(a, g) == l then a.kind.Write? || (!Dropped(before, g, l) && Unsaved(before, g, l))
    else Unsaved(before, g, l)
  }

  /** With 2^S - 1 other blocks of its set used since, the block is the next to go. */
  predicate Oldest(trace: seq<Access>, g: Geometry, l: Line)
    requires g.Legal()
  {
    LastUse(trace, g, l) > 0 && |UsedSince(trace, g, l)| == Ways(g) - 1
  }

  /** The access drops a block of its set that has been written. */
  ghost predicate WriteBackAt(trace: seq<Access>, g: Geometry, i: nat)
    requires g.Legal() && i < |trace|
  {
    MissAt(trace, g, i) &&
    exists tag :: var v := Line(GetIndex(trace[i].addr, g), tag); Oldest(trace[..i], g, v) && Unsaved(trace[..i], g, v)
  }

  ghost function Uses(trace: seq<Access>, kind: Kind): set<nat> {
    set i: nat | i < |trace| && trace[i].kind == kind
  }

  ghost function Misses(trace: seq<Access>, g: Geometry, kind: Kind): set<nat>
    requires g.Legal()
  {
    set i: nat | i < |trace| && trace[i].kind == kind && MissAt(trace, g, i)
  }

  ghost function WriteBacks(trace: seq<Access>, g: Geometry): set<nat>
    requires g.Legal()
  {
    set i: nat | i < |trace| && WriteBackAt(trace, g, i)
  }

  // ---------------------------------------------------------------- one access more

  lemma UsesAfter(trace: seq<Access>, kind: Kind)
    requires trace != []
    ensures var n := |trace| - 1;
            |Uses(trace, kind)| == |Uses(trace[..n], kind)| + if trace[n].kind == kind then 1 else 0
  {
    var n := |trace| - 1;
    OneMoreIn(Uses(trace[..n], kind), Uses(trace, kind), n, trace[n].kind == kind);
  }

  lemma PrefixOfPrefix(trace: seq<Access>, i: nat)
    requires i < |trace|
    ensures trace[..|trace| - 1][..i] == trace[..i]
  {
  }

  lemma MissEarlier(trace: seq<Access>, g: Geometry, i: nat)
    requires g.Legal() && i < |trace| - 1
    ensures MissAt(trace[..|trace| - 1], g, i) <==> MissAt(trace, g, i)
  {
    hide Dropped;
    PrefixOfPrefix(trace, i);
  }

  lemma MissesAfter(trace: seq<Access>, g: Geometry, kind: Kind)
    requires g.Legal() && trace != []
    ensures var n := |trace| - 1;
            |Misses(trace, g, kind)|
              == |Misses(trace[..n], g, kind)| + if trace[n].kind == kind && MissAt(trace, g, n) then 1 else 0
  {
    hide MissAt;
    var n := |trace| - 1;
    forall i: nat | i < n ensures MissAt(trace[..n], g, i) <==> MissAt(trace, g, i) {
      MissEarlier(trace, g, i);
    }
    OneMoreIn(Misses(trace[..n], g, kind), Misses(trace, g, kind), n, trace[n].kind == kind && MissAt(trace, g, n));
  }

  lemma WriteBackEarlier(trace: seq<Access>, g: Geometry, i: nat)
    requires g.Legal() && i < |trace| - 1
    ensures WriteBackAt(trace[..|trace| - 1], g, i) <==> WriteBackAt(trace, g, i)
  {
    hide Dropped, Oldest, Unsaved;
    PrefixOfPrefix(trace, i);
  }

  lemma WriteBacksAfter(trace: seq<Access>, g: Geometry)
    requires g.Legal() && trace != []
    ensures var n := |trace| - 1;
            |WriteBacks(trace, g)| == |WriteBacks(trace[..n], g)| + if WriteBackAt(trace, g, n) then 1 else 0
  {
    hide WriteBackAt;
    var n := |trace| - 1;
    forall i: nat | i < n ensures WriteBackAt(trace[..n], g, i) <==> WriteBackAt(trace, g, i) {
      WriteBackEarlier(trace, g, i);
    }
    OneMoreIn(WriteBacks(trace[..n], g), WriteBacks(trace, g), n, WriteBackAt(trace, g, n));
  }

  // ---------------------------------------------------------------- misses and write-backs of the cache

  lemma HitIsNotGone(c: Cache, trace: seq<Access>, a: Access)
    requires Fresh(c) && |trace| < WORD
    ensures Hit(Run(c, trace), a) <==> !Dropped(trace, c.geo, LineOf(a, c.geo))
  {
    StackDistance(c, trace, a);
  }

  lemma {:induction false} UnsavedIsWritten(c: Cache, trace: seq<Access>, l: Line)
    requires Fresh(c) && |trace| <= WORD
    ensures Unsaved(trace, c.geo, l) <==> WrittenSinceFill(c, trace, l)
  {
    hide Hit, Dropped, LineOf, Run;
    if trace != [] {
      var before, a := trace[..|trace| - 1], trace[|trace| - 1];
      UnsavedIsWritten(c, before, l);
      HitIsNotGone(c, before, a);
    }
  }

  /** Only one block is the next to go: the last of the top tags. */
  lemma OldestIsLast(trace: seq<Access>, g: Geometry, index: nat, tag: u64)
    requires g.Legal()
    ensures var r := Recency(trace, g, index);
            Oldest(trace, g, Line(index, tag)) <==> |r| >= Ways(g) && r[Ways(g) - 1] == tag
  {
    hide Recency, LastUse, UsedSince, Find;
    var r := Recency(trace, g, index);
    RecencyComplete(trace, g, index, tag);
    RecencyOrdered(trace, g, index);
    if tag in r {
      SinceIsPrefix(trace, g, index, Find(r, tag));
    }
  }

  /** A miss evicts exactly when some block is the next to go, and evicts that one. */
  lemma EvictsOldest(c: Cache, trace: seq<Access>, a: Access)
    requires Fresh(c) && |trace| < WORD && !Hit(Run(c, trace), a)
    ensures var d, index := Run(c, trace), GetIndex(a.addr, c.geo);
            forall tag ::
              Oldest(trace, c.geo, Line(index, tag)) <==> Evicts(d, a) && VictimLine(d, a) == Line(index, tag)
  {
    hide Recency, Recent, Run, Hit, Oldest, CountValid, FindInvalid, FindLru;
    var d, g := Run(c, trace), c.geo;
    AddressSplit(a.addr, g);
    var index := GetIndex(a.addr, g);
    var s := d.sets[index];
    LruContents(c, trace);
    RecentCount(s, trace, g, index);
    CountFull(s);
    MissSlot(d, a);
    if FindInvalid(s, 0) == |s| {
      LruIsLast(s, trace, g, index);
    }
    forall tag
      ensures Oldest(trace, g, Line(index, tag)) <==> Evicts(d, a) && VictimLine(d, a) == Line(index, tag)
    {
      OldestIsLast(trace, g, index, tag);
    }
  }

  lemma RecentCount(s: Set, trace: seq<Access>, g: Geometry, index: nat)
    requires g.Legal() && Recent(s, trace, g, index)
    ensures CountValid(s) == Min(|s|, |Recency(trace, g, index)|)
  {
  }

  lemma MissSlot(c: Cache, a: Access)
    requires Sized(c) && !Hit(c, a)
    ensures var i := GetIndex(a.addr, c.geo);
            && i < |c.sets| && c.sets[i] != []
            && (Evicts(c, a) <==> FindInvalid(c.sets[i], 0) == |c.sets[i]|)
            && (Evicts(c, a) ==> VictimLine(c, a) == Line(i, c.sets[i][FindLru(c.sets[i], 0, 0)].tag))
  {
    AddressSplit(a.addr, c.geo);
  }

  /** An access writes back exactly when the trace says so. */
  lemma WriteBackAgrees(c: Cache, trace: seq<Access>)
    requires Fresh(c) && trace != [] && |trace| <= WORD
    ensures var n := |trace| - 1;
            var d, a := Run(c, trace[..n]), trace[n];
            Evicts(d, a) && VictimLine(d, a) in DirtyLines(d) <==> WriteBackAt(trace, c.geo, n)
  {
    hide Run, Hit, Evicts, VictimLine, DirtyLines, ResidentLines, Dropped, Oldest, Unsaved, WrittenSinceFill, Slot;
    var n, g := |trace| - 1, c.geo;
    var before, a := trace[..n], trace[n];
    var d := Run(c, before);
    HitIsNotGone(c, before, a);
    if !Hit(d, a) {
      EvictsOldest(c, before, a);
      var index := GetIndex(a.addr, g);
      if Evicts(d, a) {
        RunCoherent(c, before);
        VictimIsDirty(d, a);
        VictimIsHere(d, a);
        var v := VictimLine(d, a);
        DirtyIffWritten(c, before, v);
        UnsavedIsWritten(c, before, v);
        assert Oldest(before, g, Line(index, v.tag));
      }
    } else {
      HitsDoNotEvict(d, a);
    }
  }

  lemma VictimIsHere(c: Cache, a: Access)
    requires Sized(c)
    ensures VictimLine(c, a).index == GetIndex(a.addr, c.geo)
  {
  }

  lemma HitsDoNotEvict(c: Cache, a: Access)
    requires Sized(c) && Hit(c, a)
    ensures !Evicts(c, a)
  {
  }

  /** What one access counts. */
  lemma StepCounts(c: Cache, a: Access)
    requires Coherent(c)
    ensures var d, s, write, miss := Step(c, a).stats, c.stats, a.kind.Write?, !Hit(c, a);
            && d.accesses == s.accesses + 1
            && d.readCount == s.readCount + One(!write) && d.readMisses == s.readMisses + One(!write && miss)
            && d.writeCount == s.writeCount + One(write) && d.writeMisses == s.writeMisses + One(write && miss)
            && d.writeBacks == s.writeBacks + One(Evicts(c, a) && VictimLine(c, a) in DirtyLines(c))
  {
    hide DirtyLines, Hit;
    StepStats(c, a);
    if Evicts(c, a) {
      VictimIsDirty(c, a);
    }
  }

  /** After every trace each counter is the number of accesses it is named for: the read misses are the reads
      of a block not used before, or with 2^S others of its set used since; the write misses likewise; and the
      write-backs are the misses whose set's oldest block has been written since it was brought in. */
  lemma {:induction false} Counters(c: Cache, trace: seq<Access>)
    requires Fresh(c) && |trace| <= WORD
    ensures var s, g := Run(c, trace).stats, c.geo;
            && s.accesses == |trace|
            && s.readCount == |Uses(trace, Read)| && s.readMisses == |Misses(trace, g, Read)|
            && s.writeCount == |Uses(trace, Write)| && s.writeMisses == |Misses(trace, g, Write)|
            && s.writeBacks == |WriteBacks(trace, g)|
  {
    hide Step, Hit, Evicts, VictimLine, DirtyLines, Dropped, WriteBackAt, Coherent, WriteBacks, Misses, Uses;
    if trace == [] {
      NothingCounted(c.geo);
    } else {
      var before, a := trace[..|trace| - 1], trace[|trace| - 1];
      Counters(c, before);
      RunCoherent(c, before);
      StepCounts(Run(c, before), a);
      HitIsNotGone(c, before, a);
      WriteBackAgrees(c, trace);
      WriteBacksAfter(trace, c.geo);
      UsesAfter(trace, Read);
      UsesAfter(trace, Write);
      MissesAfter(trace, c.geo, Read);
      MissesAfter(trace, c.geo, Write);
    }
  }

  lemma NothingCounted(g: Geometry)
    requires g.Legal()
    ensures Uses([], Read) == {} && Uses([], Write) == {} && WriteBacks([], g) == {}
    ensures Misses([], g, Read) == {} && Misses([], g, Write) == {}
  {
  }
}
