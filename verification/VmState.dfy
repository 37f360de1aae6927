/**
  The virtual memory simulator as values: its tables, and one function for each operation.

  `VmMachine` holds the same operations as loops over arrays and proves each of them against the
  function of the same name here; the results about whole runs are proved about these functions.
*/
module VmState {
  import opened Wrappers

  const ADDRESS_SPACE: nat := 0x1_0000

  type Byte = b: int | 0 <= b < 256
  type Addr = a: int | 0 <= a < ADDRESS_SPACE
  type Page = seq<Byte>

  datatype Config = Config(pageSize: nat, numFrames: nat, tlbSize: nat, maxJobs: nat) {
    ghost predicate Valid() {
      pageSize > 0 && ADDRESS_SPACE % pageSize == 0 && 0 < numFrames <= ADDRESS_SPACE
    }

    /** The number of entries in every page table. */
    function NumPte(): nat
      requires pageSize > 0
    {
      ADDRESS_SPACE / pageSize
    }

    function ZeroPage(): Page {
      seq(pageSize, _ => 0)
    }
  }

  datatype Pte = Pte(pfn: nat, valid: bool, dirty: bool, used: bool)
  datatype Tlbe = Tlbe(vpn: nat, pfn: nat, valid: bool, dirty: bool, used: bool)
  datatype Owner = Owner(pid: nat, vpn: nat)
  datatype SwapPage = SwapPage(owner: Owner, data: Page)
  datatype Counts = Counts(faults: nat, hits: nat, loads: nat, stores: nat, disk: nat)

  /** Everything the simulator keeps.  `procs` are the forked processes, `pt` holds the entries of all
      their page tables, `rlt` names the page in each frame, and `swap` lists the saved pages, newest
      first. */
  datatype Vm = Vm(
    cfg: Config,
    frames: seq<Page>,
    tlb: seq<Tlbe>,
    rlt: seq<Option<Owner>>,
    procs: set<nat>,
    pt: map<Owner, Pte>,
    swap: seq<SwapPage>,
    current: Option<nat>,
    counts: Counts)

  /** Every frame that has an owner is owned by a page with a table entry. */
  predicate RltNames(s: Vm) {
    forall f :: 0 <= f < |s.rlt| && s.rlt[f].Some? ==> s.rlt[f].value in s.pt
  }

  /** The arrays have the sizes they were allocated with. */
  ghost predicate Shape(s: Vm) {
    && s.cfg.Valid()
    && |s.frames| == |s.rlt| == s.cfg.numFrames
    && |s.tlb| == s.cfg.tlbSize
    && (forall f :: 0 <= f < |s.frames| ==> |s.frames[f]| == s.cfg.pageSize)
    && (forall p :: p in s.procs ==> p < s.cfg.maxJobs)
    && (forall o: Owner :: o in s.pt <==> o.pid in s.procs && o.vpn < s.cfg.NumPte())
    && (forall i :: 0 <= i < |s.swap| ==> |s.swap[i].data| == s.cfg.pageSize)
    && (s.current.Some? ==> s.current.value in s.procs)
    && RltNames(s)
  }

  // ---------------------------------------------------------------- start-up and processes

  function Init(c: Config): Vm {
    Vm(c, seq(c.numFrames, _ => c.ZeroPage()), seq(c.tlbSize, _ => Tlbe(0, 0, false, false, false)),
       seq(c.numFrames, _ => None), {}, map[], [], None, Counts(0, 0, 0, 0, 0))
  }

  /** The entries of a newly allocated page table. */
  function BlankTable(c: Config, pid: nat): (t: map<Owner, Pte>)
    requires c.pageSize > 0
    ensures forall o: Owner :: o in t <==> o.pid == pid && o.vpn < c.NumPte()
    ensures forall o: Owner :: o in t ==> t[o] == Pte(0, false, false, false)
  {
    map v | 0 <= v < c.NumPte() :: Owner(pid, v) := Pte(0, false, false, false)
  }

  /** `proc_fork`: an all-invalid page table. */
  function Fork(s: Vm, pid: nat): Vm
    requires s.cfg.pageSize > 0
  {
    s.(procs := s.procs + {pid}, pt := s.pt + BlankTable(s.cfg, pid))
  }

  /** `tlb_clearall`: the VPN and PFN fields keep their old contents. */
  function TlbClearAll(tlb: seq<Tlbe>): seq<Tlbe> {
    seq(|tlb|, i requires 0 <= i < |tlb| => tlb[i].(valid := false, dirty := false, used := false))
  }

  function TlbClearOne(tlb: seq<Tlbe>, vpn: nat): seq<Tlbe> {
    seq(|tlb|, i requires 0 <= i < |tlb| =>
      if tlb[i].vpn == vpn then tlb[i].(valid := false, dirty := false, used := false) else tlb[i])
  }

  function Switch(s: Vm, pid: nat): Vm {
    s.(current := Some(pid), tlb := TlbClearAll(s.tlb))
  }

  // ---------------------------------------------------------------- the swap list

  /** Position of the first saved copy of page `o` from `i` on, or the length of the list. */
  function FindSwap(swap: seq<SwapPage>, o: Owner, i: nat): (k: nat)
    requires i <= |swap|
    ensures i <= k <= |swap|
    ensures k < |swap| ==> swap[k].owner == o
    ensures forall j :: i <= j < k ==> swap[j].owner != o
    decreases |swap| - i
  {
    if i == |swap| || swap[i].owner == o then i else FindSwap(swap, o, i + 1)
  }

  function PageToDisk(s: Vm, pfn: nat, o: Owner): Vm
    requires pfn < |s.frames|
  {
    s.(swap := [SwapPage(o, s.frames[pfn])] + s.swap, counts := s.counts.(disk := s.counts.disk + 1))
  }

  /** What `page_from_disk` restores for page `o`: its saved copy, or zeros when there is none. */
  function Rebuild(c: Config, swap: seq<SwapPage>, o: Owner): Page {
    var k := FindSwap(swap, o, 0);
    if k == |swap| then c.ZeroPage() else swap[k].data
  }

  function Remove(swap: seq<SwapPage>, o: Owner): seq<SwapPage> {
    var k := FindSwap(swap, o, 0);
    if k == |swap| then swap else Without(swap, k)
  }

  function PageFromDisk(s: Vm, pfn: nat, o: Owner): Vm
    requires pfn < |s.frames|
  {
    s.(frames := s.frames[pfn := Rebuild(s.cfg, s.swap, o)], swap := Remove(s.swap, o),
       counts := s.counts.(disk := s.counts.disk + if FindSwap(s.swap, o, 0) < |s.swap| then 1 else 0))
  }

  // ---------------------------------------------------------------- frame replacement

  function FirstFree(rlt: seq<Option<Owner>>, i: nat): (f: nat)
    requires i <= |rlt|
    ensures i <= f <= |rlt|
    ensures f < |rlt| ==> rlt[f].None?
    ensures forall j :: i <= j < f ==> rlt[j].Some?
    decreases |rlt| - i
  {
    if i == |rlt| || rlt[i].None? then i else FirstFree(rlt, i + 1)
  }

  /** The sweep of `get_free_frame` from frame `i` on: clear used bits up to the first unused frame.
      A sweep that finds every frame used gives frame 0. */
  function Sweep(s: Vm, i: nat): (r: (nat, Vm))
    requires 0 < |s.rlt| && i <= |s.rlt| && RltNames(s)
    requires forall f :: i <= f < |s.rlt| ==> s.rlt[f].Some?
    ensures r.0 < |s.rlt|
    ensures r.1 == s.(pt := r.1.pt) && r.1.pt.Keys == s.pt.Keys
    decreases |s.rlt| - i
  {
    if i == |s.rlt| then
      (0, s)
    else
      var o := s.rlt[i].value;
      if s.pt[o].used then Sweep(s.(pt := s.pt[o := s.pt[o].(used := false)]), i + 1) else (i, s)
  }

  /** `get_free_frame`. */
  function GetFreeFrame(s: Vm): (r: (nat, Vm))
    requires 0 < |s.rlt| && RltNames(s)
    ensures r.0 < |s.rlt|
    ensures r.1 == s.(pt := r.1.pt) && r.1.pt.Keys == s.pt.Keys
  {
    var f := FirstFree(s.rlt, 0);
    if f < |s.rlt| then (f, s) else Sweep(s, 0)
  }

  // ---------------------------------------------------------------- the page fault handler

  /** The victim's part of `pagefault_handler`: save a dirty page, drop its mapping and TLB entry. */
  function Evict(s: Vm, pfn: nat): Vm
    requires pfn < |s.rlt| == |s.frames| && RltNames(s)
  {
    match s.rlt[pfn]
    case None => s
    case Some(o) =>
      if s.pt[o].valid then
        var t := if s.pt[o].dirty then PageToDisk(s, pfn, o) else s;
        t.(pt := t.pt[o := s.pt[o].(valid := false)]).(tlb := TlbClearOne(s.tlb, o.vpn))
      else
        s
  }

  /** The requester's part: the frame is the requester's, then the page is restored into it. */
  function Install(s: Vm, pfn: nat, o: Owner, write: bool): Vm
    requires pfn < |s.rlt| == |s.frames| && o in s.pt
  {
    PageFromDisk(s.(rlt := s.rlt[pfn := Some(o)], pt := s.pt[o := Pte(pfn, true, write, true)]), pfn, o)
  }

  /** What every table operation needs: a running process whose table covers `vpn`. */
  predicate CanAccess(s: Vm, vpn: nat) {
    0 < |s.rlt| == |s.frames| && RltNames(s) && s.current.Some? && Owner(s.current.value, vpn) in s.pt
  }

  /** `pagefault_handler`. */
  function Fault(s: Vm, vpn: nat, write: bool): (r: (nat, Vm))
    requires CanAccess(s, vpn)
    ensures r.0 < |s.rlt|
  {
    var (pfn, t) := GetFreeFrame(s);
    (pfn, Install(Evict(t, pfn), pfn, Owner(s.current.value, vpn), write))
  }

  /** `pagetable_lookup`. */
  function PagetableLookup(s: Vm, vpn: nat, write: bool): (nat, Vm)
    requires CanAccess(s, vpn)
  {
    var e := s.pt[Owner(s.current.value, vpn)];
    if e.valid then (e.pfn, s) else Fault(s.(counts := s.counts.(faults := s.counts.faults + 1)), vpn, write)
  }

  // ---------------------------------------------------------------- the TLB

  function TlbFind(tlb: seq<Tlbe>, vpn: nat, i: nat): (k: nat)
    requires i <= |tlb|
    ensures i <= k <= |tlb|
    ensures k < |tlb| ==> tlb[k].valid && tlb[k].vpn == vpn
    ensures forall j :: i <= j < k ==> !(tlb[j].valid && tlb[j].vpn == vpn)
    decreases |tlb| - i
  {
    if i == |tlb| || (tlb[i].valid && tlb[i].vpn == vpn) then i else TlbFind(tlb, vpn, i + 1)
  }

  function TlbInvalid(tlb: seq<Tlbe>, i: nat): (k: nat)
    requires i <= |tlb|
    ensures i <= k <= |tlb|
    ensures k < |tlb| ==> !tlb[k].valid
    ensures forall j :: i <= j < k ==> tlb[j].valid
    decreases |tlb| - i
  {
    if i == |tlb| || !tlb[i].valid then i else TlbInvalid(tlb, i + 1)
  }

  /** The replacement sweep over a full TLB; when every entry is used none is replaced. */
  function TlbSweep(tlb: seq<Tlbe>, e: Tlbe, i: nat): (r: seq<Tlbe>)
    requires i <= |tlb|
    ensures |r| == |tlb|
    decreases |tlb| - i
  {
    if i == |tlb| then tlb
    else if !tlb[i].used then tlb[i := e]
    else TlbSweep(tlb[i := tlb[i].(used := false)], e, i + 1)
  }

  function TlbFill(tlb: seq<Tlbe>, e: Tlbe): seq<Tlbe> {
    var k := TlbInvalid(tlb, 0);
    if k < |tlb| then tlb[k := e] else TlbSweep(tlb, e, 0)
  }

  /** `tlb_lookup`. */
  function TlbLookup(s: Vm, vpn: nat, write: bool): (nat, Vm)
    requires CanAccess(s, vpn)
  {
    var k := TlbFind(s.tlb, vpn, 0);
    if k < |s.tlb| then
      (s.tlb[k].pfn, s.(counts := s.counts.(hits := s.counts.hits + 1)))
    else
      var (pfn, t) := PagetableLookup(s, vpn, write);
      (pfn, t.(tlb := TlbFill(t.tlb, Tlbe(vpn, pfn, true, write, true))))
  }
}
