/** A cache with more blocks in each set contains the smaller one, and misses and writes back no more. */
module CacheInclusion {
  import opened Arith
  import opened Wrappers
  import opened CacheAddress
  import opened CacheState
  import opened CacheLru
  import opened CacheConservation

  /** Two empty caches, (C, S, B) and (C + k, S + k, B): as many sets, with at least as many blocks in each. */
  ghost predicate Comparable(small: Cache, big: Cache) {
    && Fresh(small) && Fresh(big) && small.geo.S <= big.geo.S
    && var k := big.geo.S - small.geo.S;
      big.geo == Geometry(small.geo.C + k, small.geo.S + k, small.geo.B)
  }

  lemma {:induction false} SameRecency(trace: seq<Access>, g: Geometry, h: Geometry, index: nat)
    requires g.Legal() && h.Legal() && g.B == h.B && g.C - g.S == h.C - h.S
    ensures Recency(trace, g, index) == Recency(trace, h, index)
  {
    if trace != [] {
      SameRecency(trace[..|trace| - 1], g, h, index);
      SameSplit(trace[|trace| - 1].addr, g, h);
    }
  }

  lemma WaysGrow(s: nat, k: nat)
    ensures Pow2(s) <= Pow2(s + k)
  {
    Pow2Add(s, k);
  }

  /** Whatever the small cache holds, the big one holds. */
  lemma {:induction false} Inclusion(small: Cache, big: Cache, trace: seq<Access>)
    requires Comparable(small, big) && |trace| < WORD
    ensures ResidentLines(Run(small, trace)) <= ResidentLines(Run(big, trace))
  {
    hide ResidentLines, Run;
    WaysGrow(small.geo.S, big.geo.S - small.geo.S);
    forall l: Line | l in ResidentLines(Run(small, trace)) ensures l in ResidentLines(Run(big, trace)) {
      ResidentGrows(small, big, trace, l);
    }
  }

  lemma {:induction false} ResidentGrows(small: Cache, big: Cache, trace: seq<Access>, l: Line)
    requires Comparable(small, big) && |trace| < WORD && Ways(small.geo) <= Ways(big.geo)
    requires l in ResidentLines(Run(small, trace))
    ensures l in ResidentLines(Run(big, trace))
  {
    hide ResidentLines, Run, Recency, Top;
    ResidentIsRecent(small, trace, l);
    ResidentIsRecent(big, trace, l);
    SameRecency(trace, small.geo, big.geo, l.index);
    TopGrows(Recency(trace, small.geo, l.index), Ways(small.geo), Ways(big.geo), l.tag);
  }

  lemma TopGrows(r: seq<u64>, v: nat, w: nat, x: u64)
    requires v <= w && x in Top(r, v)
    ensures x in Top(r, w)
  {
  }

  /** Whatever the small cache holds dirty, the big one holds dirty. */
  lemma {:induction false} DirtyInclusion(small: Cache, big: Cache, trace: seq<Access>)
    requires Comparable(small, big) && |trace| < WORD
    ensures DirtyLines(Run(small, trace)) <= DirtyLines(Run(big, trace))
  {
    hide Step, Hit, Evicts;
    if trace == [] {
      FreshIsClean(small);
    } else {
      var before, a := trace[..|trace| - 1], trace[|trace| - 1];
      var c, d := Run(small, before), Run(big, before);
      DirtyInclusion(small, big, before);
      Inclusion(small, big, before);
      Inclusion(small, big, trace);
      RunCoherent(small, before);
      RunCoherent(big, before);
      SameSplit(a.addr, small.geo, big.geo);
      forall l: Line | l in DirtyLines(Run(small, trace)) ensures l in DirtyLines(Run(big, trace)) {
        DirtyIsResident(Run(small, trace), l);
        StepLines(c, a, l);
        StepLines(d, a, l);
      }
    }
  }

  /** The big cache misses no more reads, no more writes, and writes to clean blocks no more often. */
  lemma {:induction false} FewerMisses(small: Cache, big: Cache, trace: seq<Access>)
    requires Comparable(small, big) && |trace| < WORD
    ensures var c, d := Run(small, trace), Run(big, trace);
            && d.stats.readMisses <= c.stats.readMisses && d.stats.writeMisses <= c.stats.writeMisses
            && Soilings(big, trace) <= Soilings(small, trace)
  {
    hide Hit, Evicts, Slot;
    if trace != [] {
      var before, a := trace[..|trace| - 1], trace[|trace| - 1];
      var c, d := Run(small, before), Run(big, before);
      FewerMisses(small, big, before);
      Inclusion(small, big, before);
      DirtyInclusion(small, big, before);
      SameSplit(a.addr, small.geo, big.geo);
      HitIsHolds(c, a);
      HitIsHolds(d, a);
    }
  }

  /** The big cache writes back no more blocks. */
  lemma FewerWriteBacks(small: Cache, big: Cache, trace: seq<Access>)
    requires Comparable(small, big) && |trace| < WORD
    ensures Run(big, trace).stats.writeBacks <= Run(small, trace).stats.writeBacks
  {
    LineSums(small, trace);
    LineSums(big, trace);
    FewerMisses(small, big, trace);
    DirtyInclusion(small, big, trace);
    SubsetSize(DirtyLines(Run(small, trace)), DirtyLines(Run(big, trace)));
  }
}
