/** Address translation, loads and stores: each keeps the invariant and finds the page-table frame. */
module VmAccess {
  import opened Wrappers
  import opened VmState
  import opened VmInvariant
  import opened VmFault

  // ---------------------------------------------------------------- the TLB

  /** `r` is `tlb` with entry `k` (if there is one) replaced by `e` and other used bits. */
  ghost predicate FilledAt(tlb: seq<Tlbe>, r: seq<Tlbe>, e: Tlbe, k: int) {
    && |r| == |tlb|
    && (forall i :: 0 <= i < |tlb| ==> r[i] == if i == k then e else tlb[i].(used := r[i].used))
  }

  lemma {:induction false} TlbSweepFills(tlb: seq<Tlbe>, e: Tlbe, i: nat) returns (k: int)
    requires i <= |tlb|
    ensures FilledAt(tlb, TlbSweep(tlb, e, i), e, k)
    decreases |tlb| - i
  {
    if i == |tlb| {
      k := -1;
    } else if !tlb[i].used {
      k := i;
    } else {
      k := TlbSweepFills(tlb[i := tlb[i].(used := false)], e, i + 1);
    }
  }

  lemma TlbFillFills(tlb: seq<Tlbe>, e: Tlbe) returns (k: int)
    ensures FilledAt(tlb, TlbFill(tlb, e), e, k)
  {
    k := TlbInvalid(tlb, 0);
    if k == |tlb| {
      k := TlbSweepFills(tlb, e, 0);
    }
  }

  /** Filling the TLB with the entry of a resident page it did not hold keeps it coherent. */
  lemma FillKeepsCoherent(s: Vm, vpn: nat, write: bool)
    requires TlbCoherent(s) && s.current.Some? && Resident(s, Owner(s.current.value, vpn))
    requires forall i :: 0 <= i < |s.tlb| ==> !(s.tlb[i].valid && s.tlb[i].vpn == vpn)
    ensures var e := Tlbe(vpn, s.pt[Owner(s.current.value, vpn)].pfn, true, write, true);
            var t := s.(tlb := TlbFill(s.tlb, e));
            TlbCoherent(t) && |t.tlb| == |s.tlb|
  {
    var e := Tlbe(vpn, s.pt[Owner(s.current.value, vpn)].pfn, true, write, true);
    var k := TlbFillFills(s.tlb, e);
    var t := s.(tlb := TlbFill(s.tlb, e));
    forall i | 0 <= i < |t.tlb| && t.tlb[i].valid
      ensures var o := Owner(s.current.value, t.tlb[i].vpn); Resident(t, o) && t.pt[o].pfn == t.tlb[i].pfn
    {
      assert i != k ==> Resident(s, Owner(s.current.value, s.tlb[i].vpn));
    }
  }

  // ---------------------------------------------------------------- translation

  function CurrentPage(s: Vm, vpn: nat): Owner
    requires s.current.Some?
  {
    Owner(s.current.value, vpn)
  }

  /** `pagetable_lookup`: the frame of the page, faulting it in when it is not resident. */
  lemma {:induction false} PagetableLookupEffect(s: Vm, vpn: nat, write: bool)
    requires Inv(s) && CanAccess(s, vpn)
    ensures var (pfn, t) := PagetableLookup(s, vpn, write);
            var q := CurrentPage(s, vpn);
            && Inv(t) && t.pt.Keys == s.pt.Keys && t.procs == s.procs && t.current == s.current && t.cfg == s.cfg
            && Resident(t, q) && t.pt[q].pfn == pfn
            && (Resident(s, q) ==> t == s)
            && (!Resident(s, q) ==> t.counts.faults == s.counts.faults + 1 && pfn == VictimFrame(s))
            && t.counts == s.counts.(faults := t.counts.faults, disk := t.counts.disk)
            && OnlyCleared(s.tlb, t.tlb)
  {
    hide Fault, VictimFrame, LosslessFrame;
    var q := CurrentPage(s, vpn);
    if !Resident(s, q) {
      var s1 := s.(counts := s.counts.(faults := s.counts.faults + 1));
      CountsDoNotMatter(s, s1);
      FaultEffect(s1, vpn, write, s.counts.faults);
    }
  }

  lemma CountsDoNotMatter(s: Vm, t: Vm)
    requires t == s.(counts := t.counts)
    ensures Core(s) ==> Core(t)
    ensures forall o :: PageOf(t, o) == PageOf(s, o)
    ensures forall o :: (o in t.pt <==> o in s.pt) && (Resident(t, o) <==> Resident(s, o))
    ensures 0 < |s.rlt| && RltNames(s) ==> VictimFrame(t) == VictimFrame(s)
  {
    assert forall o: Owner :: o in t.pt <==> o in s.pt;
    if 0 < |s.rlt| && RltNames(s) && FirstFree(s.rlt, 0) == |s.rlt| {
      SweepIgnoresCounts(s, t, 0);
    }
  }

  /** The sweep reads the tables only. */
  lemma {:induction false} SweepIgnoresCounts(s: Vm, t: Vm, i: nat)
    requires t == s.(counts := t.counts) && 0 < |s.rlt| && i <= |s.rlt| && RltNames(s)
    requires forall f :: i <= f < |s.rlt| ==> s.rlt[f].Some?
    ensures Sweep(t, i).0 == Sweep(s, i).0
    decreases |s.rlt| - i
  {
    if i < |s.rlt| {
      var o := s.rlt[i].value;
      if s.pt[o].used {
        SweepIgnoresCounts(s.(pt := s.pt[o := s.pt[o].(used := false)]),
                           t.(pt := t.pt[o := t.pt[o].(used := false)]), i + 1);
      }
    }
  }

  /** What `tlb_lookup` does with the translation `pagetable_lookup` gave it after a miss. */
  lemma FillKeepsInv(t: Vm, vpn: nat, pfn: nat, write: bool)
    requires Inv(t) && t.current.Some? && Resident(t, CurrentPage(t, vpn)) && t.pt[CurrentPage(t, vpn)].pfn == pfn
    requires forall i :: 0 <= i < |t.tlb| ==> !(t.tlb[i].valid && t.tlb[i].vpn == vpn)
    ensures Inv(t.(tlb := TlbFill(t.tlb, Tlbe(vpn, pfn, true, write, true))))
  {
    FillKeepsCoherent(t, vpn, write);
  }

  /** `tlb_lookup` returns the page-table frame whether it hits, misses or faults. */
  lemma TlbLookupEffect(s: Vm, vpn: nat, write: bool)
    requires Inv(s) && CanAccess(s, vpn)
    ensures var (pfn, t) := TlbLookup(s, vpn, write);
            var q := CurrentPage(s, vpn);
            && Inv(t) && t.pt.Keys == s.pt.Keys && t.procs == s.procs && t.current == s.current && t.cfg == s.cfg
            && Resident(t, q) && t.pt[q].pfn == pfn
            && (Resident(s, q) ==> t == s.(tlb := t.tlb, counts := t.counts) && t.counts.faults == s.counts.faults)
            && (!Resident(s, q) ==> t.counts.faults == s.counts.faults + 1 && pfn == VictimFrame(s))
            && t.counts.loads == s.counts.loads && t.counts.stores == s.counts.stores
  {
    hide PagetableLookup;
    if TlbFind(s.tlb, vpn, 0) == |s.tlb| {
      PagetableLookupEffect(s, vpn, write);
      var (pfn, t) := PagetableLookup(s, vpn, write);
      FillKeepsInv(t, vpn, pfn, write);
    }
  }

  /** What a translation does to the bytes of page `o`. */
  lemma TlbLookupPages(s: Vm, vpn: nat, write: bool, o: Owner)
    requires Inv(s) && CanAccess(s, vpn)
    ensures var v := VictimFrame(s);
            PageOf(TlbLookup(s, vpn, write).1, o) ==
              if !Resident(s, CurrentPage(s, vpn)) && s.rlt[v] == Some(o) && !LosslessFrame(s, v)
              then s.cfg.ZeroPage() else PageOf(s, o)
  {
    hide Fault, VictimFrame;
    var q := CurrentPage(s, vpn);
    if Resident(s, q) {
      TlbLookupEffect(s, vpn, write);
    } else {
      var s1 := s.(counts := s.counts.(faults := s.counts.faults + 1));
      CountsDoNotMatter(s, s1);
      FaultPages(s1, vpn, write, s.counts.faults, o);
      assert TlbFind(s.tlb, vpn, 0) == |s.tlb|;
      var t := PagetableLookup(s, vpn, write).1;
      var u := TlbLookup(s, vpn, write).1;
      assert u == t.(tlb := u.tlb);
      assert PageOf(u, o) == PageOf(t, o);
    }
  }

  /** What a translation does to the valid and dirty bits of page `o`. */
  lemma TlbLookupEntries(s: Vm, vpn: nat, write: bool, o: Owner)
    requires Inv(s) && CanAccess(s, vpn)
    ensures var t := TlbLookup(s, vpn, write).1;
            var q := CurrentPage(s, vpn);
            && (Resident(s, q) ==> t.pt == s.pt)
            && (!Resident(s, q) ==>
                  && (Resident(t, o) <==> o == q || (Resident(s, o) && s.rlt[VictimFrame(s)] != Some(o)))
                  && (o in s.pt ==> o in t.pt && t.pt[o].dirty == if o == q then write else s.pt[o].dirty))
  {
    hide Fault, VictimFrame;
    var q := CurrentPage(s, vpn);
    if Resident(s, q) {
      TlbLookupEffect(s, vpn, write);
    } else {
      var s1 := s.(counts := s.counts.(faults := s.counts.faults + 1));
      CountsDoNotMatter(s, s1);
      FaultEntries(s1, vpn, write, s.counts.faults, o);
      assert TlbFind(s.tlb, vpn, 0) == |s.tlb|;
    }
  }

  /** What a translation does to the used bits. */
  lemma TlbLookupUsedBits(s: Vm, vpn: nat, write: bool)
    requires Inv(s) && CanAccess(s, vpn)
    ensures var t := TlbLookup(s, vpn, write).1;
            RltNames(t) && UsedBits(t) ==
              if Resident(s, CurrentPage(s, vpn)) then UsedBits(s)
              else if s.counts.faults < |s.rlt| then UsedBits(s)[VictimFrame(s) := true]
              else ClearFrom(UsedBits(s), 0)[VictimFrame(s) := true]
  {
    hide PagetableLookup, VictimFrame, UsedBits, ClearFrom, Core, OccupiedUpTo, TlbFill;
    TlbLookupEffect(s, vpn, write);
    var t := TlbLookup(s, vpn, write).1;
    if Resident(s, CurrentPage(s, vpn)) {
      SameTablesSameBits(s, t);
    } else {
      MissingIsNotFound(s, vpn);
      PagetableUsedBits(s, vpn, write);
      SameTablesSameBits(PagetableLookup(s, vpn, write).1, t);
    }
  }

  lemma SameTablesSameBits(s: Vm, t: Vm)
    requires RltNames(s) && t.pt == s.pt && t.rlt == s.rlt
    ensures RltNames(t) && UsedBits(t) == UsedBits(s)
  {
  }

  /** A page that is not resident is in no TLB entry. */
  lemma MissingIsNotFound(s: Vm, vpn: nat)
    requires Inv(s) && CanAccess(s, vpn) && !Resident(s, CurrentPage(s, vpn))
    ensures TlbFind(s.tlb, vpn, 0) == |s.tlb|
  {
  }

  lemma PagetableUsedBits(s: Vm, vpn: nat, write: bool)
    requires Inv(s) && CanAccess(s, vpn) && !Resident(s, CurrentPage(s, vpn))
    ensures var t := PagetableLookup(s, vpn, write).1;
            RltNames(t) && UsedBits(t) ==
              if s.counts.faults < |s.rlt| then UsedBits(s)[VictimFrame(s) := true]
              else ClearFrom(UsedBits(s), 0)[VictimFrame(s) := true]
  {
    hide Fault, VictimFrame, UsedBits, ClearFrom, PageOf, LosslessFrame;
    var s1 := s.(counts := s.counts.(faults := s.counts.faults + 1));
    CountsDoNotMatter(s, s1);
    SameTablesSameBits(s, s1);
    FaultEffect(s1, vpn, write, s.counts.faults);
    FaultUsedBits(s1, vpn, write, s.counts.faults);
  }
}
