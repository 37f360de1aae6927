/** One page fault: what the handler does to every page, and that it keeps the invariant. */
module VmFault {
  import opened Wrappers
  import opened VmState
  import opened VmInvariant

  // ---------------------------------------------------------------- the swap list as a partial map

  lemma RebuildAt(c: Config, swap: seq<SwapPage>, k: nat)
    requires DistinctOwners(swap) && k < |swap|
    ensures Rebuild(c, swap, swap[k].owner) == swap[k].data
  {
    assert FindSwap(swap, swap[k].owner, 0) == k;
  }

  lemma RebuildPush(c: Config, swap: seq<SwapPage>, p: SwapPage, o: Owner)
    requires DistinctOwners([p] + swap)
    ensures Rebuild(c, [p] + swap, o) == if o == p.owner then p.data else Rebuild(c, swap, o)
  {
    var big := [p] + swap;
    assert forall i :: 0 <= i < |swap| ==> swap[i] == big[i + 1];
    assert DistinctOwners(swap);
    var k := FindSwap(big, o, 0);
    if k < |big| {
      RebuildAt(c, big, k);
      if k > 0 {
        RebuildAt(c, swap, k - 1);
      }
    } else {
      assert forall i :: 0 <= i < |swap| ==> swap[i].owner == big[i + 1].owner != o;
    }
  }

  /** Taking out a page's only copy leaves the other copies, in order. */
  lemma RemoveKeeps(swap: seq<SwapPage>, q: Owner)
    requires DistinctOwners(swap)
    ensures DistinctOwners(Remove(swap, q))
    ensures forall i :: 0 <= i < |Remove(swap, q)| ==> Remove(swap, q)[i] in swap && Remove(swap, q)[i].owner != q
  {
    var k := FindSwap(swap, q, 0);
    var small := Remove(swap, q);
    if k < |swap| {
      forall i | 0 <= i < |small|
        ensures small[i] == swap[if i < k then i else i + 1]
      {
      }
    }
  }

  lemma RebuildRemove(c: Config, swap: seq<SwapPage>, q: Owner, o: Owner)
    requires DistinctOwners(swap) && o != q
    ensures Rebuild(c, Remove(swap, q), o) == Rebuild(c, swap, o)
  {
    RemoveKeeps(swap, q);
    var k, j := FindSwap(swap, q, 0), FindSwap(swap, o, 0);
    var small := Remove(swap, q);
    if j < |swap| {
      if k < |swap| {
        var i := if j < k then j else j - 1;
        assert small[i] == swap[j];
        RebuildAt(c, small, i);
      }
    } else {
      assert forall i :: 0 <= i < |small| ==> small[i].owner != o;
    }
  }

  // ---------------------------------------------------------------- the page an address space shows

  /** The bytes a process sees in page `o`: its frame if resident, else what a fault would restore. */
  ghost function PageOf(s: Vm, o: Owner): Page {
    if Resident(s, o) && s.pt[o].pfn < |s.frames| then s.frames[s.pt[o].pfn] else Rebuild(s.cfg, s.swap, o)
  }

  lemma UsedBitsDoNotMatter(s: Vm, t: Vm)
    requires Core(s) && SameButUsed(s, t) && RltExact(t)
    ensures Core(t)
    ensures forall o :: PageOf(t, o) == PageOf(s, o)
    ensures forall o :: o in t.pt <==> o in s.pt
  {
    assert forall o: Owner :: o in t.pt <==> o in s.pt;
    assert forall o: Owner :: Resident(t, o) <==> Resident(s, o);
  }

  lemma FreeFrameEffect(s: Vm, n: nat)
    requires Core(s) && OccupiedUpTo(s, n)
    ensures var (v, t) := GetFreeFrame(s);
            && SameButUsed(s, t) && Core(t) && OccupiedUpTo(t, n)
            && (forall o :: PageOf(t, o) == PageOf(s, o))
            && (forall o :: o in t.pt <==> o in s.pt)
            && (n < |s.rlt| ==> v == n && t == s)
            && (n >= |s.rlt| ==>
                  var z := FirstZero(UsedBits(s), 0);
                  v == (if z == |s.rlt| then 0 else z) && UsedBits(t) == ClearFrom(UsedBits(s), 0))
  {
    if n < |s.rlt| {
      var k := FirstFree(s.rlt, 0);
      assert s.rlt[n].None?;
      assert k < |s.rlt| ==> !(k < n);
    } else {
      assert FirstFree(s.rlt, 0) == |s.rlt|;
      SweepEffect(s, 0);
      UsedBitsDoNotMatter(s, Sweep(s, 0).1);
    }
  }

  // ---------------------------------------------------------------- evict and install

  /** The swap list once frame `v` has been saved, if its page is dirty. */
  function Pushed(s: Vm, v: nat): seq<SwapPage>
    requires v < |s.rlt| == |s.frames| && RltNames(s)
  {
    if s.rlt[v].Some? && s.pt[s.rlt[v].value].dirty
    then [SwapPage(s.rlt[v].value, s.frames[v])] + s.swap
    else s.swap
  }

  /** The state after the handler has taken frame `v` from its owner and given it to page `q`. */
  function Replaced(s: Vm, v: nat, q: Owner, write: bool): Vm
    requires v < |s.rlt| == |s.frames| && RltNames(s) && q in s.pt
  {
    Install(Evict(s, v), v, q, write)
  }

  /** The entry of page `o` once frame `v` has been taken from its owner. */
  function EvictedPte(s: Vm, v: nat, o: Owner): Pte
    requires v < |s.rlt| && o in s.pt
  {
    if s.rlt[v] == Some(o) then s.pt[o].(valid := false) else s.pt[o]
  }

  lemma EvictEffect(s: Vm, v: nat)
    requires Core(s) && v < |s.rlt|
    ensures var t := Evict(s, v);
            && t.pt.Keys == s.pt.Keys
            && (forall o: Owner :: o in s.pt ==> t.pt[o] == EvictedPte(s, v, o))
            && t.swap == Pushed(s, v)
            && t.tlb == (if s.rlt[v].Some? then TlbClearOne(s.tlb, s.rlt[v].value.vpn) else s.tlb)
            && t == s.(pt := t.pt, tlb := t.tlb, swap := t.swap, counts := s.counts.(disk := t.counts.disk))
  {
  }

  /** Replacing the page in frame `v`: the page tables and the reverse lookup table. */
  lemma ReplacedTables(s: Vm, v: nat, q: Owner, write: bool)
    requires Core(s) && v < |s.rlt| && q in s.pt && !Resident(s, q)
    ensures var t := Replaced(s, v, q, write);
            && t.pt.Keys == s.pt.Keys
            && (forall o: Owner :: o in s.pt ==>
                  t.pt[o] == if o == q then Pte(v, true, write, true) else EvictedPte(s, v, o))
            && t.rlt == s.rlt[v := Some(q)]
  {
    EvictEffect(s, v);
  }

  /** Replacing the page in frame `v`: the TLB, the frames and the swap list. */
  lemma ReplacedStorage(s: Vm, v: nat, q: Owner, write: bool)
    requires Core(s) && v < |s.rlt| && q in s.pt && !Resident(s, q)
    ensures var t := Replaced(s, v, q, write);
            && t.tlb == (if s.rlt[v].Some? then TlbClearOne(s.tlb, s.rlt[v].value.vpn) else s.tlb)
            && t.frames == s.frames[v := Rebuild(s.cfg, Pushed(s, v), q)]
            && t.swap == Remove(Pushed(s, v), q)
            && t == s.(pt := t.pt, rlt := t.rlt, tlb := t.tlb, frames := t.frames, swap := t.swap,
                       counts := s.counts.(disk := t.counts.disk))
  {
    EvictEffect(s, v);
  }

  lemma PushedDistinct(s: Vm, v: nat)
    requires Core(s) && v < |s.rlt|
    ensures DistinctOwners(Pushed(s, v))
    ensures forall i :: 0 <= i < |Pushed(s, v)| ==>
      || (s.rlt[v].Some? && Pushed(s, v)[i] == SwapPage(s.rlt[v].value, s.frames[v]))
      || Pushed(s, v)[i] in s.swap
  {
    assert DistinctOwners(s.swap);
    if s.rlt[v].Some? && s.pt[s.rlt[v].value].dirty {
      var p := Pushed(s, v);
      assert forall i :: 0 < i < |p| ==> p[i] == s.swap[i - 1];
    }
  }

  lemma ReplacedRlt(s: Vm, v: nat, q: Owner, write: bool)
    requires Core(s) && v < |s.rlt| && q in s.pt && !Resident(s, q)
    ensures RltExact(Replaced(s, v, q, write))
  {
    hide Replaced, Install, Evict, Remove, Rebuild, Pushed, FindSwap;
    ReplacedTables(s, v, q, write);
  }

  lemma ReplacedSwap(s: Vm, v: nat, q: Owner, write: bool)
    requires Core(s) && v < |s.rlt| && q in s.pt && !Resident(s, q)
    ensures SwapOnce(Replaced(s, v, q, write))
  {
    hide Replaced, Install, Evict, Remove, Rebuild, Pushed, FindSwap;
    ReplacedTables(s, v, q, write);
    ReplacedStorage(s, v, q, write);
    PushedDistinct(s, v);
    RemoveKeeps(Pushed(s, v), q);
    var t := Replaced(s, v, q, write);
    forall i | 0 <= i < |t.swap|
      ensures t.swap[i].owner in t.pt && !Resident(t, t.swap[i].owner)
    {
      assert t.swap[i] in Pushed(s, v);
    }
  }

  lemma ReplacedTlb(s: Vm, v: nat, q: Owner, write: bool)
    requires Core(s) && v < |s.rlt| && q in s.pt && !Resident(s, q) && s.current == Some(q.pid)
    ensures TlbCoherent(Replaced(s, v, q, write))
  {
    hide Replaced, Install, Evict, Remove, Rebuild, Pushed, FindSwap;
    ReplacedTables(s, v, q, write);
    ReplacedStorage(s, v, q, write);
    var t := Replaced(s, v, q, write);
    forall i | 0 <= i < |t.tlb| && t.tlb[i].valid
      ensures var o := Owner(q.pid, t.tlb[i].vpn); Resident(t, o) && t.pt[o].pfn == t.tlb[i].pfn
    {
      assert s.tlb[i] == t.tlb[i];
      assert Resident(s, Owner(q.pid, s.tlb[i].vpn));
    }
  }

  lemma ReplacedShape(s: Vm, v: nat, q: Owner, write: bool)
    requires Core(s) && v < |s.rlt| && q in s.pt && !Resident(s, q)
    ensures Shape(Replaced(s, v, q, write))
  {
    hide Replaced, Install, Evict, Remove, Rebuild, Pushed, FindSwap, DistinctOwners;
    ReplacedTables(s, v, q, write);
    ReplacedStorage(s, v, q, write);
    PushedDistinct(s, v);
    RemoveKeeps(Pushed(s, v), q);
    PushedSizes(s, v);
    RebuildSize(s.cfg, Pushed(s, v), q);
    assert forall p :: p in Replaced(s, v, q, write).swap ==> p in Pushed(s, v);
  }

  lemma PushedSizes(s: Vm, v: nat)
    requires Shape(s) && v < |s.rlt|
    ensures forall p :: p in Pushed(s, v) ==> |p.data| == s.cfg.pageSize
  {
    assert forall p :: p in s.swap ==> |p.data| == s.cfg.pageSize;
  }

  lemma RebuildSize(c: Config, swap: seq<SwapPage>, o: Owner)
    requires forall p :: p in swap ==> |p.data| == c.pageSize
    ensures |Rebuild(c, swap, o)| == c.pageSize
  {
  }

  /** Replacing a page keeps one home per page and a coherent TLB. */
  lemma ReplacedKeepsCore(s: Vm, v: nat, q: Owner, write: bool)
    requires Core(s) && v < |s.rlt| && q in s.pt && !Resident(s, q) && s.current == Some(q.pid)
    ensures Core(Replaced(s, v, q, write))
  {
    ReplacedRlt(s, v, q, write);
    ReplacedSwap(s, v, q, write);
    ReplacedTlb(s, v, q, write);
    ReplacedShape(s, v, q, write);
  }

  /** Evicting frame `v` loses nothing: it is free, its page is written back, or a fault on its page
      would rebuild the same bytes. */
  ghost predicate LosslessFrame(s: Vm, v: nat)
    requires v < |s.rlt| == |s.frames| && RltNames(s)
  {
    s.rlt[v].Some? ==>
      s.pt[s.rlt[v].value].dirty || s.frames[v] == Rebuild(s.cfg, s.swap, s.rlt[v].value)
  }

  /** What the swap list gives back for page `o` once frame `v` has been saved. */
  lemma PushedRebuild(s: Vm, v: nat, o: Owner)
    requires Core(s) && v < |s.rlt|
    ensures Rebuild(s.cfg, Pushed(s, v), o) ==
      if s.rlt[v] == Some(o) && s.pt[o].dirty then s.frames[v] else Rebuild(s.cfg, s.swap, o)
  {
    PushedDistinct(s, v);
    if Pushed(s, v) != s.swap {
      RebuildPush(s.cfg, s.swap, SwapPage(s.rlt[v].value, s.frames[v]), o);
    }
  }

  /** Every page but a lost victim reads as before; a lost victim reads as what a fault would rebuild. */
  lemma ReplacedPages(s: Vm, v: nat, q: Owner, write: bool, o: Owner)
    requires Core(s) && v < |s.rlt| && q in s.pt && !Resident(s, q)
    ensures var t := Replaced(s, v, q, write);
            PageOf(t, o) ==
              if s.rlt[v] == Some(o) && !LosslessFrame(s, v) then Rebuild(s.cfg, s.swap, o) else PageOf(s, o)
  {
    hide Replaced, Install, Evict, Remove, Rebuild, Pushed, FindSwap;
    ReplacedTables(s, v, q, write);
    ReplacedStorage(s, v, q, write);
    var t := Replaced(s, v, q, write);
    if o == q {
      PushedRebuild(s, v, q);
      assert PageOf(t, o) == t.frames[v];
    } else if Resident(t, o) {
      assert t.pt[o] == s.pt[o] && s.pt[o].pfn != v;
    } else {
      PushedDistinct(s, v);
      RebuildRemove(s.cfg, Pushed(s, v), q, o);
      PushedRebuild(s, v, o);
    }
  }

  /** The saved pages of a resident page: none, so a fault would rebuild zeros. */
  lemma ResidentRebuildsZero(s: Vm, o: Owner)
    requires SwapOnce(s) && Resident(s, o)
    ensures Rebuild(s.cfg, s.swap, o) == s.cfg.ZeroPage()
  {
  }

  // ---------------------------------------------------------------- the handler

  /** The entries of `r` that are still valid are those of `tlb`. */
  ghost predicate OnlyCleared(tlb: seq<Tlbe>, r: seq<Tlbe>) {
    |r| == |tlb| && forall i :: 0 <= i < |r| && r[i].valid ==> r[i] == tlb[i]
  }

  /** The frame `pagefault_handler` takes. */
  function VictimFrame(s: Vm): (v: nat)
    requires 0 < |s.rlt| && RltNames(s)
    ensures v < |s.rlt|
  {
    GetFreeFrame(s).0
  }

  lemma FaultIsReplacement(s: Vm, vpn: nat, write: bool)
    requires CanAccess(s, vpn) && Core(s)
    ensures var (v, t) := GetFreeFrame(s);
            Fault(s, vpn, write) == (v, Replaced(t, v, Owner(s.current.value, vpn), write))
  {
  }

  /** `pagefault_handler` on a page that is not resident, with `n` earlier faults. */
  lemma FaultEffect(s: Vm, vpn: nat, write: bool, n: nat)
    requires CanAccess(s, vpn) && Core(s) && OccupiedUpTo(s, n)
    requires !Resident(s, Owner(s.current.value, vpn))
    ensures var (v, t) := Fault(s, vpn, write);
            var q := Owner(s.current.value, vpn);
            && v == VictimFrame(s) && Core(t) && OccupiedUpTo(t, n + 1)
            && Resident(t, q) && t.pt[q].pfn == v
            && t.current == s.current && t.cfg == s.cfg && t.counts == s.counts.(disk := t.counts.disk)
            && t.pt.Keys == s.pt.Keys && t.procs == s.procs
            && (n < |s.rlt| ==> v == n)
            && OnlyCleared(s.tlb, t.tlb)
  {
    hide Fault, Replaced, Install, Evict, GetFreeFrame, Pushed, Remove, Rebuild, UsedBits, FirstZero, PageOf;
    FaultIsReplacement(s, vpn, write);
    FreeFrameEffect(s, n);
    var (v, t) := GetFreeFrame(s);
    var q := Owner(s.current.value, vpn);
    assert !Resident(t, q);
    ReplacedTables(t, v, q, write);
    ReplacedStorage(t, v, q, write);
    ReplacedKeepsCore(t, v, q, write);
  }

  /** What the handler does to the bytes of page `o`. */
  lemma FaultPages(s: Vm, vpn: nat, write: bool, n: nat, o: Owner)
    requires CanAccess(s, vpn) && Core(s) && OccupiedUpTo(s, n)
    requires !Resident(s, Owner(s.current.value, vpn))
    ensures var v := VictimFrame(s);
            PageOf(Fault(s, vpn, write).1, o) ==
              if s.rlt[v] == Some(o) && !LosslessFrame(s, v) then s.cfg.ZeroPage() else PageOf(s, o)
  {
    FreeFrameEffect(s, n);
    var (v, t) := GetFreeFrame(s);
    ReplacedPages(t, v, Owner(s.current.value, vpn), write, o);
    if s.rlt[v].Some? {
      ResidentRebuildsZero(s, s.rlt[v].value);
    }
  }

  /** What the handler does to the valid and dirty bits of page `o`. */
  lemma FaultEntries(s: Vm, vpn: nat, write: bool, n: nat, o: Owner)
    requires CanAccess(s, vpn) && Core(s) && OccupiedUpTo(s, n)
    requires !Resident(s, Owner(s.current.value, vpn))
    ensures var t := Fault(s, vpn, write).1;
            var q := Owner(s.current.value, vpn);
            && (Resident(t, o) <==> o == q || (Resident(s, o) && s.rlt[VictimFrame(s)] != Some(o)))
            && (o in s.pt ==> o in t.pt && t.pt[o].dirty == if o == q then write else s.pt[o].dirty)
  {
    hide Fault, Replaced, Install, Evict, Sweep;
    FaultIsReplacement(s, vpn, write);
    FreeFrameEffect(s, n);
    var (v, t) := GetFreeFrame(s);
    ReplacedTables(t, v, Owner(s.current.value, vpn), write);
  }

  /** What the handler does to the used bits: with a free frame it sets that frame's bit; with none it
      clears the bits the sweep passed and sets the victim's. */
  lemma FaultUsedBits(s: Vm, vpn: nat, write: bool, n: nat)
    requires CanAccess(s, vpn) && Core(s) && OccupiedUpTo(s, n)
    requires !Resident(s, Owner(s.current.value, vpn))
    ensures var (v, t) := Fault(s, vpn, write);
            RltNames(t) && UsedBits(t) ==
              if n < |s.rlt| then UsedBits(s)[v := true] else ClearFrom(UsedBits(s), 0)[v := true]
  {
    hide Fault, Replaced, Install, Evict, Sweep;
    FaultIsReplacement(s, vpn, write);
    FreeFrameEffect(s, n);
    var (v, t) := GetFreeFrame(s);
    ReplacedUsedBits(t, v, Owner(s.current.value, vpn), write);
  }

  lemma ReplacedUsedBits(s: Vm, v: nat, q: Owner, write: bool)
    requires Core(s) && v < |s.rlt| && q in s.pt && !Resident(s, q)
    ensures var t := Replaced(s, v, q, write); RltNames(t) && UsedBits(t) == UsedBits(s)[v := true]
  {
    hide Replaced;
    ReplacedTables(s, v, q, write);
    ReplacedShape(s, v, q, write);
    var t := Replaced(s, v, q, write);
    forall f | 0 <= f < |s.rlt| && f != v
      ensures UsedBits(t)[f] == UsedBits(s)[f]
    {
      if s.rlt[f].Some? {
        assert s.pt[s.rlt[f].value].pfn == f;
      }
    }
  }
}
