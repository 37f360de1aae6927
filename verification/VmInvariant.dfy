/**
  What every operation of the simulator keeps: the reverse lookup table is the exact inverse of the
  valid page-table entries, each page has one home, and the TLB agrees with the current page table.
*/
module VmInvariant {
  import opened Wrappers
  import opened VmState

  /** `rlt` and the valid page-table entries of all processes are inverse to each other. */
  ghost predicate RltExact(s: Vm) {
    && (forall f :: 0 <= f < |s.rlt| && s.rlt[f].Some? ==>
          var o := s.rlt[f].value; o in s.pt && s.pt[o].valid && s.pt[o].pfn == f)
    && (forall o: Owner :: o in s.pt && s.pt[o].valid ==>
          s.pt[o].pfn < |s.rlt| && s.rlt[s.pt[o].pfn] == Some(o))
  }

  ghost predicate Resident(s: Vm, o: Owner) {
    o in s.pt && s.pt[o].valid
  }

  ghost predicate DistinctOwners(swap: seq<SwapPage>) {
    forall i, j :: 0 <= i < j < |swap| ==> swap[i].owner != swap[j].owner
  }

  /** At most one saved copy of a page, none of a resident page, and none of a page without an entry. */
  ghost predicate SwapOnce(s: Vm) {
    && DistinctOwners(s.swap)
    && (forall i :: 0 <= i < |s.swap| ==> s.swap[i].owner in s.pt && !Resident(s, s.swap[i].owner))
  }

  /** Valid TLB entries have distinct page numbers and repeat a valid entry of the current table. */
  ghost predicate TlbCoherent(s: Vm) {
    && (forall i, j :: 0 <= i < j < |s.tlb| && s.tlb[i].valid && s.tlb[j].valid ==> s.tlb[i].vpn != s.tlb[j].vpn)
    && (forall i :: 0 <= i < |s.tlb| && s.tlb[i].valid ==>
          s.current.Some? && Resident(s, Owner(s.current.value, s.tlb[i].vpn))
          && s.pt[Owner(s.current.value, s.tlb[i].vpn)].pfn == s.tlb[i].pfn)
  }

  ghost predicate Core(s: Vm) {
    Shape(s) && RltExact(s) && SwapOnce(s) && TlbCoherent(s)
  }

  /** Exactly the first `n` frames (or all of them) are in use. */
  ghost predicate OccupiedUpTo(s: Vm, n: nat) {
    forall f :: 0 <= f < |s.rlt| ==> (s.rlt[f].Some? <==> f < n)
  }

  /** One frame is in use per page fault, until all are. */
  ghost predicate Inv(s: Vm) {
    Core(s) && OccupiedUpTo(s, s.counts.faults)
  }

  // ---------------------------------------------------------------- the sweep

  /** The used bits of the resident pages, frame by frame; false for a free frame. */
  function UsedBits(s: Vm): (b: seq<bool>)
    requires RltNames(s)
    ensures |b| == |s.rlt|
  {
    seq(|s.rlt|, f requires 0 <= f < |s.rlt| => s.rlt[f].Some? && s.pt[s.rlt[f].value].used)
  }

  function FirstZero(b: seq<bool>, i: nat): (z: nat)
    requires i <= |b|
    ensures i <= z <= |b|
    ensures z < |b| ==> !b[z]
    ensures forall j :: i <= j < z ==> b[j]
    decreases |b| - i
  {
    if i == |b| || !b[i] then i else FirstZero(b, i + 1)
  }

  function ClearFrom(b: seq<bool>, i: nat): (r: seq<bool>)
    requires i <= |b|
    ensures |r| == |b|
    decreases |b| - i
  {
    if i == |b| || !b[i] then b else ClearFrom(b[i := false], i + 1)
  }

  lemma {:induction false} FirstZeroSkips(b: seq<bool>, c: seq<bool>, i: nat)
    requires i <= |b| == |c| && b[i..] == c[i..]
    ensures FirstZero(b, i) == FirstZero(c, i)
    decreases |b| - i
  {
    if i < |b| {
      assert b[i] == b[i..][0] && c[i] == c[i..][0];
      assert b[i + 1..] == b[i..][1..] && c[i + 1..] == c[i..][1..];
      FirstZeroSkips(b, c, i + 1);
    }
  }

  /** `t` is `s` with other used bits. */
  ghost predicate SameButUsed(s: Vm, t: Vm) {
    && t == s.(pt := t.pt) && t.pt.Keys == s.pt.Keys
    && (forall o: Owner :: o in s.pt ==> t.pt[o] == s.pt[o].(used := t.pt[o].used))
  }

  /** The state once the sweep has cleared the used bit of the page in frame `i`. */
  function Cleared(s: Vm, i: nat): Vm
    requires i < |s.rlt| && s.rlt[i].Some? && s.rlt[i].value in s.pt
  {
    var o := s.rlt[i].value;
    s.(pt := s.pt[o := s.pt[o].(used := false)])
  }

  lemma ClearUsedEffect(s: Vm, i: nat)
    requires RltNames(s) && RltExact(s) && i < |s.rlt| && s.rlt[i].Some?
    ensures s.rlt[i].value in s.pt
    ensures var t := Cleared(s, i);
      && t.rlt == s.rlt && RltNames(t) && SameButUsed(s, t) && RltExact(t)
      && UsedBits(t) == UsedBits(s)[i := false]
  {
    var o := s.rlt[i].value;
  }

  lemma {:induction false} SweepEffect(s: Vm, i: nat)
    requires 0 < |s.rlt| && i <= |s.rlt| && RltNames(s) && RltExact(s)
    requires forall f :: i <= f < |s.rlt| ==> s.rlt[f].Some?
    ensures var (v, t) := Sweep(s, i);
            var z := FirstZero(UsedBits(s), i);
            && SameButUsed(s, t) && RltExact(t)
            && v == (if z == |s.rlt| then 0 else z)
            && UsedBits(t) == ClearFrom(UsedBits(s), i)
    decreases |s.rlt| - i
  {
    hide Sweep, Cleared, RltExact, RltNames, UsedBits, SameButUsed, FirstZero, ClearFrom;
    SweepStep(s, i);
    SameAsItself(s);
    BitsAt(UsedBits(s), i);
    if i < |s.rlt| && UsedBits(s)[i] {
      var s1 := Cleared(s, i);
      ClearUsedEffect(s, i);
      SweepEffect(s1, i + 1);
      SameButUsedTrans(s, s1, Sweep(s, i).1);
    }
  }

  lemma SweepStep(s: Vm, i: nat)
    requires 0 < |s.rlt| && i <= |s.rlt| && RltNames(s)
    requires forall f :: i <= f < |s.rlt| ==> s.rlt[f].Some?
    ensures i == |s.rlt| ==> Sweep(s, i) == (0, s)
    ensures i < |s.rlt| && !UsedBits(s)[i] ==> Sweep(s, i) == (i, s)
    ensures i < |s.rlt| && UsedBits(s)[i] ==>
      && s.rlt[i].value in s.pt
      && var t := Cleared(s, i); t.rlt == s.rlt && RltNames(t) && Sweep(s, i) == Sweep(t, i + 1)
  {
  }

  /** One step of the sweep, on the bits. */
  lemma BitsAt(b: seq<bool>, i: nat)
    requires i <= |b|
    ensures i < |b| && b[i] ==>
      FirstZero(b, i) == FirstZero(b[i := false], i + 1) && ClearFrom(b, i) == ClearFrom(b[i := false], i + 1)
    ensures i < |b| && !b[i] ==> FirstZero(b, i) == i && ClearFrom(b, i) == b
    ensures i == |b| ==> FirstZero(b, i) == |b| && ClearFrom(b, i) == b
  {
    if i < |b| && b[i] {
      FirstZeroSkips(b, b[i := false], i + 1);
    }
  }

  lemma SameAsItself(s: Vm)
    ensures SameButUsed(s, s)
  {
  }

  lemma SameButUsedTrans(s: Vm, t: Vm, u: Vm)
    requires SameButUsed(s, t) && SameButUsed(t, u)
    ensures SameButUsed(s, u)
  {
    forall o: Owner | o in s.pt
      ensures u.pt[o] == s.pt[o].(used := u.pt[o].used)
    {
      assert o in t.pt;
    }
  }
}
