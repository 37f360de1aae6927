/** What the TLB holds: which slot a fill takes, and exactly when a lookup hits. */
module VmTlb {
  import opened Wrappers
  import opened VmState
  import opened VmInvariant
  import opened VmFault
  import opened VmAccess
  import opened VmRuns
  import opened VmTransparency

  // ---------------------------------------------------------------- filling

  ghost predicate FirstInvalid(tlb: seq<Tlbe>, k: nat) {
    k <= |tlb| && (forall j :: 0 <= j < k ==> tlb[j].valid) && (k < |tlb| ==> !tlb[k].valid)
  }

  ghost predicate FirstUnused(tlb: seq<Tlbe>, k: nat) {
    k <= |tlb| && (forall j :: 0 <= j < k ==> tlb[j].used) && (k < |tlb| ==> !tlb[k].used)
  }

  /** `r` is `tlb` filled with `e`: the lowest invalid slot takes it. With none invalid the lowest unused one
      does and the used bits before it are cleared; with none unused no slot does and all are cleared. */
  ghost predicate Filled(tlb: seq<Tlbe>, r: seq<Tlbe>, e: Tlbe) {
    && |r| == |tlb|
    && (forall k: nat :: FirstInvalid(tlb, k) && k < |tlb| ==> r == tlb[k := e])
    && (FirstInvalid(tlb, |tlb|) ==>
          forall k: nat :: FirstUnused(tlb, k) ==>
            forall j :: 0 <= j < |tlb| ==>
              r[j] == if j < k then tlb[j].(used := false) else if j == k then e else tlb[j])
  }

  lemma {:induction false} SweepLaw(tlb: seq<Tlbe>, e: Tlbe, i: nat, k: nat)
    requires i <= k <= |tlb| && (forall j :: i <= j < k ==> tlb[j].used) && (k < |tlb| ==> !tlb[k].used)
    ensures forall j :: 0 <= j < |tlb| ==>
      TlbSweep(tlb, e, i)[j] == if i <= j < k then tlb[j].(used := false) else if j == k then e else tlb[j]
    decreases k - i
  {
    if i < k {
      SweepLaw(tlb[i := tlb[i].(used := false)], e, i + 1, k);
    }
  }

  lemma FillLaw(tlb: seq<Tlbe>, e: Tlbe)
    ensures Filled(tlb, TlbFill(tlb, e), e)
  {
    var n := TlbInvalid(tlb, 0);
    forall k: nat | FirstInvalid(tlb, k) && k < |tlb| ensures k == n {
    }
    if n == |tlb| {
      forall k: nat | FirstUnused(tlb, k)
        ensures forall j :: 0 <= j < |tlb| ==>
          TlbFill(tlb, e)[j] == if j < k then tlb[j].(used := false) else if j == k then e else tlb[j]
      {
        SweepLaw(tlb, e, 0, k);
      }
    }
  }

  ghost predicate Present(tlb: seq<Tlbe>, vpn: nat) {
    exists i :: 0 <= i < |tlb| && tlb[i].valid && tlb[i].vpn == vpn
  }

  /** Some slot is invalid or unused. */
  ghost predicate Room(tlb: seq<Tlbe>) {
    exists i :: 0 <= i < |tlb| && !(tlb[i].valid && tlb[i].used)
  }

  lemma {:induction false} LowestInvalid(tlb: seq<Tlbe>) returns (k: nat)
    ensures FirstInvalid(tlb, k)
  {
    k := TlbInvalid(tlb, 0);
  }

  lemma {:induction false} LowestUnused(tlb: seq<Tlbe>) returns (k: nat)
    ensures FirstUnused(tlb, k)
  {
    k := 0;
    while k < |tlb| && tlb[k].used
      invariant k <= |tlb| && forall j :: 0 <= j < k ==> tlb[j].used
    {
      k := k + 1;
    }
  }

  /** A fill with a page not yet held puts it in exactly when there is room. */
  lemma FilledHolds(tlb: seq<Tlbe>, r: seq<Tlbe>, e: Tlbe)
    requires Filled(tlb, r, e) && e.valid && !Present(tlb, e.vpn)
    ensures Present(r, e.vpn) <==> Room(tlb)
  {
    var k := LowestInvalid(tlb);
    var n := LowestUnused(tlb);
    if k < |tlb| {
      assert r[k] == e;
      assert !tlb[k].valid;
    } else if n < |tlb| {
      assert r[n] == e;
      assert !tlb[n].used;
    }
  }

  // ---------------------------------------------------------------- lookups

  /** The page number of the page that an access pushes out. */
  ghost function PushedNumber(s: Vm, vpn: nat): Option<nat>
    requires Inv(s) && CanAccess(s, vpn)
  {
    if Resident(s, CurrentPage(s, vpn)) then None
    else match s.rlt[VictimFrame(s)]
         case None => None
         case Some(o) => Some(o.vpn)
  }

  /** The TLB without the entries of a page number. */
  function Dropped(tlb: seq<Tlbe>, gone: Option<nat>): seq<Tlbe> {
    seq(|tlb|, i requires 0 <= i < |tlb| =>
      if gone == Some(tlb[i].vpn) then tlb[i].(valid := false, dirty := false, used := false) else tlb[i])
  }

  lemma FaultTlb(s: Vm, vpn: nat, write: bool, n: nat)
    requires CanAccess(s, vpn) && Core(s) && OccupiedUpTo(s, n)
    requires !Resident(s, Owner(s.current.value, vpn))
    ensures Fault(s, vpn, write).1.tlb == match s.rlt[VictimFrame(s)]
                                          case None => s.tlb
                                          case Some(o) => Dropped(s.tlb, Some(o.vpn))
  {
    hide Fault, Replaced, Install, Evict, Pushed, Remove, Rebuild, UsedBits, FirstZero, PageOf;
    FaultIsReplacement(s, vpn, write);
    FreeFrameEffect(s, n);
    var (v, t) := GetFreeFrame(s);
    ReplacedStorage(t, v, Owner(s.current.value, vpn), write);
    if s.rlt[v].Some? {
      assert TlbClearOne(s.tlb, s.rlt[v].value.vpn) == Dropped(s.tlb, Some(s.rlt[v].value.vpn));
    }
  }

  lemma PagetableTlb(s: Vm, vpn: nat, write: bool)
    requires Inv(s) && CanAccess(s, vpn)
    ensures PagetableLookup(s, vpn, write).1.tlb == Dropped(s.tlb, PushedNumber(s, vpn))
  {
    hide Fault, VictimFrame, LosslessFrame;
    assert Dropped(s.tlb, None) == s.tlb;
    if !Resident(s, CurrentPage(s, vpn)) {
      var s1 := s.(counts := s.counts.(faults := s.counts.faults + 1));
      CountsDoNotMatter(s, s1);
      FaultTlb(s1, vpn, write, s.counts.faults);
    }
  }

  /** A lookup hits exactly when the TLB holds the page: then it only counts. A miss counts no hit and, once
      the entries of the page number pushed out are gone, fills the TLB with the translation. */
  lemma LookupLaw(s: Vm, vpn: nat, write: bool)
    requires Inv(s) && CanAccess(s, vpn)
    ensures var (pfn, t) := TlbLookup(s, vpn, write);
            if Present(s.tlb, vpn) then t == s.(counts := s.counts.(hits := s.counts.hits + 1))
            else && t.counts.hits == s.counts.hits
                 && Filled(Dropped(s.tlb, PushedNumber(s, vpn)), t.tlb, Tlbe(vpn, pfn, true, write, true))
  {
    hide PagetableLookup, Filled, Dropped, PushedNumber, TlbFill, Core, OccupiedUpTo, VictimFrame;
    if TlbFind(s.tlb, vpn, 0) == |s.tlb| {
      PagetableTlb(s, vpn, write);
      PagetableLookupEffect(s, vpn, write);
      var (pfn, t) := PagetableLookup(s, vpn, write);
      FillLaw(t.tlb, Tlbe(vpn, pfn, true, write, true));
    }
  }

  // ---------------------------------------------------------------- commands

  /** The TLB that a load or store looks in: emptied when another process ran. */
  function Searched(s: Vm, op: Op): seq<Tlbe> {
    if s.current == Some(op.pid) then s.tlb
    else seq(|s.tlb|, i requires 0 <= i < |s.tlb| => s.tlb[i].(valid := false, dirty := false, used := false))
  }

  /** The page number of the page that a command pushes out. */
  ghost function Displaced(s: Vm, op: Op): Option<nat>
    requires Inv(s)
  {
    if !Faults(s, op) then None
    else match s.rlt[VictimFrame(s)]
         case None => None
         case Some(o) => Some(o.vpn)
  }

  lemma SelectTlb(s: Vm, op: Op)
    requires Inv(s) && Legal(s.cfg, s.procs, op) && Accesses(s.cfg, op)
    ensures var u := Select(s, op.pid);
            && Inv(u) && CanAccess(u, Vpn(s.cfg, op.va)) && u.cfg == s.cfg && u.counts == s.counts
            && u.tlb == Searched(s, op) && PushedNumber(u, Vpn(s.cfg, op.va)) == Displaced(s, op)
  {
    hide VictimFrame, Core, OccupiedUpTo;
    SelectEffect(s, op.pid);
    VictimIgnoresSelect(s, op.pid);
    RunningCanAccess(Select(s, op.pid), op.pid, op.va);
  }

  ghost predicate Hits(s: Vm, op: Op)
    requires s.cfg.pageSize > 0
  {
    Accesses(s.cfg, op) && Present(Searched(s, op), Vpn(s.cfg, op.va))
  }

  /** The entry that a command leaves for its page. */
  ghost function NewEntry(s: Vm, op: Op): Tlbe
    requires Inv(s) && !op.Fork?
  {
    var o := PageName(s.cfg, op.pid, op.va);
    Tlbe(o.vpn, if Resident(s, o) then s.pt[o].pfn else VictimFrame(s), true, op.Store?, true)
  }

  /** What a command does to the TLB and to the count of hits. */
  lemma ExecTlb(s: Vm, op: Op)
    requires Inv(s) && Legal(s.cfg, s.procs, op)
    ensures var t := Exec(s, op);
            && t.counts.hits == s.counts.hits + (if Hits(s, op) then 1 else 0)
            && (!Accesses(s.cfg, op) ==> t.tlb == s.tlb && t.current == s.current)
            && (Accesses(s.cfg, op) ==>
                  && t.current == Some(op.pid)
                  && (Hits(s, op) ==> t.tlb == Searched(s, op))
                  && (!Hits(s, op) ==> Filled(Dropped(Searched(s, op), Displaced(s, op)), t.tlb, NewEntry(s, op))))
  {
    hide TlbLookup, VictimFrame, Filled, Dropped, OccupiedUpTo, PushedNumber, Displaced, Present, Searched;
    if Accesses(s.cfg, op) {
      SelectTlb(s, op);
      SelectEffect(s, op.pid);
      VictimIgnoresSelect(s, op.pid);
      var u := Select(s, op.pid);
      LookupLaw(u, Vpn(s.cfg, op.va), op.Store?);
      TlbLookupEffect(u, Vpn(s.cfg, op.va), op.Store?);
    }
  }

  /** A command that repeats an access hits exactly when the first one hit or found room in the TLB, once the
      entries of the page number that it pushed out were gone. */
  lemma RepeatHits(s: Vm, op: Op, again: Op)
    requires Inv(s) && Legal(s.cfg, s.procs, op) && Accesses(s.cfg, op)
    requires Accesses(s.cfg, again) && PageName(s.cfg, again.pid, again.va) == PageName(s.cfg, op.pid, op.va)
    ensures var t := Exec(s, op);
            && Inv(t) && Legal(t.cfg, t.procs, again)
            && (Exec(t, again).counts.hits == t.counts.hits + 1 <==>
                  Hits(s, op) || Room(Dropped(Searched(s, op), Displaced(s, op))))
  {
    hide Exec, VictimFrame, Filled, OccupiedUpTo, Displaced, Room;
    ExecKeepsInv(s, op);
    ExecTlb(s, op);
    var t := Exec(s, op);
    ExecTlb(t, again);
    if !Hits(s, op) {
      FilledHolds(Dropped(Searched(s, op), Displaced(s, op)), t.tlb, NewEntry(s, op));
    }
  }
}
