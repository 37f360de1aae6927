/** Loads, stores, forks and switches, and what every run of them keeps. */
module VmRuns {
  import opened Arith
  import opened Wrappers
  import opened VmState
  import opened VmInvariant
  import opened VmFault
  import opened VmAccess

  // ---------------------------------------------------------------- addresses

  function Vpn(c: Config, va: Addr): nat
    requires c.pageSize > 0
  {
    va / c.pageSize
  }

  function Offset(c: Config, va: Addr): nat
    requires c.pageSize > 0
  {
    va % c.pageSize
  }

  /** Every address splits into a page of the table and an offset below the page size. */
  lemma AddressSplits(c: Config, va: Addr)
    requires c.Valid()
    ensures Vpn(c, va) < c.NumPte() && Offset(c, va) < c.pageSize
    ensures va == Vpn(c, va) * c.pageSize + Offset(c, va)
  {
    assert ADDRESS_SPACE == c.NumPte() * c.pageSize;
    DivBelow(va, c.pageSize, c.NumPte());
  }

  lemma AddressJoins(c: Config, vpn: nat, off: nat) returns (va: Addr)
    requires c.Valid() && vpn < c.NumPte() && off < c.pageSize
    ensures Vpn(c, va) == vpn && Offset(c, va) == off
  {
    var n := c.NumPte();
    assert ADDRESS_SPACE == n * c.pageSize;
    assert (vpn + 1) * c.pageSize <= n * c.pageSize;
    va := vpn * c.pageSize + off;
    DivMod(vpn, off, c.pageSize);
  }

  /** The page of address `va` in process `pid`. */
  function PageName(c: Config, pid: nat, va: Addr): Owner
    requires c.pageSize > 0
  {
    Owner(pid, Vpn(c, va))
  }

  // ---------------------------------------------------------------- loads and stores

  lemma RunningCanAccess(s: Vm, pid: nat, va: Addr)
    requires Inv(s) && s.current == Some(pid)
    ensures CanAccess(s, Vpn(s.cfg, va))
  {
    AddressSplits(s.cfg, va);
  }

  function Poke(p: Page, i: nat, val: Byte): Page
    requires i < |p|
  {
    p[..i] + [val] + p[i + 1..]
  }

  /** `mem_load`. */
  ghost function MemLoad(s: Vm, va: Addr): (Byte, Vm)
    requires Inv(s) && s.current.Some?
  {
    RunningCanAccess(s, s.current.value, va);
    TlbLookupEffect(s, Vpn(s.cfg, va), false);
    AddressSplits(s.cfg, va);
    var (pfn, t) := TlbLookup(s, Vpn(s.cfg, va), false);
    (t.frames[pfn][Offset(s.cfg, va)], t.(counts := t.counts.(loads := t.counts.loads + 1)))
  }

  /** `mem_store`. */
  ghost function MemStore(s: Vm, va: Addr, val: Byte): Vm
    requires Inv(s) && s.current.Some?
  {
    RunningCanAccess(s, s.current.value, va);
    TlbLookupEffect(s, Vpn(s.cfg, va), true);
    AddressSplits(s.cfg, va);
    var (pfn, t) := TlbLookup(s, Vpn(s.cfg, va), true);
    t.(frames := t.frames[pfn := Poke(t.frames[pfn], Offset(s.cfg, va), val)],
       counts := t.counts.(stores := t.counts.stores + 1))
  }

  /** The byte process `pid` sees at `va`. */
  ghost function ByteAt(s: Vm, pid: nat, va: Addr): Byte
    requires Core(s)
  {
    var p := PageOf(s, PageName(s.cfg, pid, va));
    AddressSplits(s.cfg, va);
    assert |p| == s.cfg.pageSize;
    p[Offset(s.cfg, va)]
  }

  /** The page with this name is the one an access would push out and lose. */
  ghost predicate Loses(s: Vm, vpn: nat, o: Owner)
    requires Inv(s) && CanAccess(s, vpn)
  {
    !Resident(s, CurrentPage(s, vpn)) && s.rlt[VictimFrame(s)] == Some(o) && !LosslessFrame(s, VictimFrame(s))
  }

  /** A translation changes no byte, except those of a page it loses, which read as zero. */
  lemma TranslationBytes(s: Vm, va: Addr, write: bool, pid: nat, va': Addr)
    requires Inv(s) && s.current.Some?
    ensures CanAccess(s, Vpn(s.cfg, va))
    ensures var t := TlbLookup(s, Vpn(s.cfg, va), write).1;
            && Inv(t) && t.cfg == s.cfg
            && ByteAt(t, pid, va') ==
                 if Loses(s, Vpn(s.cfg, va), PageName(s.cfg, pid, va')) then 0 else ByteAt(s, pid, va')
  {
    var vpn := Vpn(s.cfg, va);
    RunningCanAccess(s, s.current.value, va);
    TlbLookupEffect(s, vpn, write);
    TlbLookupPages(s, vpn, write, PageName(s.cfg, pid, va'));
    AddressSplits(s.cfg, va');
  }

  /** A load returns the byte its process sees at the address, whatever page it pushes out. */
  lemma LoadEffect(s: Vm, va: Addr)
    requires Inv(s) && s.current.Some?
    ensures var (b, t) := MemLoad(s, va);
            && b == ByteAt(s, s.current.value, va)
            && Inv(t) && t.cfg == s.cfg && t.current == s.current && t.pt.Keys == s.pt.Keys && t.procs == s.procs
  {
    hide TlbLookup, VictimFrame, LosslessFrame, Rebuild;
    var vpn := Vpn(s.cfg, va);
    RunningCanAccess(s, s.current.value, va);
    TlbLookupEffect(s, vpn, false);
    TlbLookupPages(s, vpn, false, CurrentPage(s, vpn));
    AddressSplits(s.cfg, va);
    var t := TlbLookup(s, vpn, false).1;
    CountsDoNotMatter(t, MemLoad(s, va).1);
  }

  lemma LoadBytes(s: Vm, va: Addr, pid: nat, va': Addr)
    requires Inv(s) && s.current.Some?
    ensures CanAccess(s, Vpn(s.cfg, va))
    ensures var t := MemLoad(s, va).1;
            Inv(t) && ByteAt(t, pid, va') ==
              if Loses(s, Vpn(s.cfg, va), PageName(s.cfg, pid, va')) then 0 else ByteAt(s, pid, va')
  {
    TranslationBytes(s, va, false, pid, va');
    LoadEffect(s, va);
    CountsDoNotMatter(TlbLookup(s, Vpn(s.cfg, va), false).1, MemLoad(s, va).1);
  }

  lemma StoreEffect(s: Vm, va: Addr, val: Byte)
    requires Inv(s) && s.current.Some?
    ensures var t := MemStore(s, va, val);
            && Inv(t) && t.cfg == s.cfg && t.current == s.current && t.pt.Keys == s.pt.Keys && t.procs == s.procs
  {
    hide TlbLookup, VictimFrame, Rebuild;
    RunningCanAccess(s, s.current.value, va);
    TlbLookupEffect(s, Vpn(s.cfg, va), true);
    AddressSplits(s.cfg, va);
  }

  /** A store changes the byte it names and no other, except those of a page it loses. */
  lemma StoreBytes(s: Vm, va: Addr, val: Byte, pid: nat, va': Addr)
    requires Inv(s) && s.current.Some?
    ensures CanAccess(s, Vpn(s.cfg, va))
    ensures var t := MemStore(s, va, val);
            Inv(t) && ByteAt(t, pid, va') ==
              if pid == s.current.value && va' == va then val
              else if Loses(s, Vpn(s.cfg, va), PageName(s.cfg, pid, va')) then 0
              else ByteAt(s, pid, va')
  {
    hide TlbLookup, VictimFrame, LosslessFrame, Rebuild;
    var vpn := Vpn(s.cfg, va);
    TranslationBytes(s, va, true, pid, va');
    StoreEffect(s, va, val);
    TlbLookupEffect(s, vpn, true);
    var (pfn, t) := TlbLookup(s, vpn, true);
    var u := MemStore(s, va, val);
    AddressSplits(s.cfg, va);
    AddressSplits(s.cfg, va');
    var o := PageName(s.cfg, pid, va');
    assert Resident(u, o) <==> Resident(t, o);
    if Resident(t, o) && o != CurrentPage(s, vpn) {
      assert t.pt[o].pfn != pfn;
    }
  }

  // ---------------------------------------------------------------- commands and runs

  /** One line of a references file: `@ pid`, `l pid addr`, `s pid addr val`. */
  datatype Op = Fork(pid: nat) | Load(pid: nat, va: Addr) | Store(pid: nat, va: Addr, val: Byte)

  /** The simulator's own demands: a process id in range is forked once, and before it is used. */
  predicate Legal(c: Config, procs: set<nat>, op: Op) {
    op.pid < c.maxJobs ==> (op.Fork? <==> op.pid !in procs)
  }

  /** The context switch a command makes when another process runs. */
  function Select(s: Vm, pid: nat): Vm {
    if s.current == Some(pid) then s else Switch(s, pid)
  }

  lemma SelectEffect(s: Vm, pid: nat)
    requires Inv(s) && pid in s.procs
    ensures var t := Select(s, pid);
            && Inv(t) && t.current == Some(pid) && t == s.(tlb := t.tlb, current := t.current)
            && (forall q, va :: ByteAt(t, q, va) == ByteAt(s, q, va))
  {
    var t := Select(s, pid);
    assert forall o: Owner :: Resident(t, o) <==> Resident(s, o);
    assert forall o :: PageOf(t, o) == PageOf(s, o);
  }

  lemma ForkEffect(s: Vm, pid: nat)
    requires Inv(s) && pid !in s.procs && pid < s.cfg.maxJobs
    ensures var t := VmState.Fork(s, pid);
            && Inv(t) && t.procs == s.procs + {pid}
            && t == s.(procs := t.procs, pt := t.pt)
            && (forall o: Owner :: Resident(t, o) <==> Resident(s, o))
            && (forall o: Owner :: o in s.pt ==> t.pt[o] == s.pt[o])
            && (forall o :: PageOf(t, o) == PageOf(s, o))
  {
    var t := VmState.Fork(s, pid);
    assert forall o: Owner :: o in s.pt ==> o.pid != pid;
    assert forall o: Owner :: o in s.pt ==> o in t.pt && t.pt[o] == s.pt[o];
    assert forall o: Owner :: o in t.pt <==> o.pid in t.procs && o.vpn < t.cfg.NumPte();
    assert forall o: Owner :: Resident(t, o) <==> Resident(s, o);
  }

  /** The simulator executes one command; a process id out of range is ignored. */
  ghost function Exec(s: Vm, op: Op): Vm
    requires Inv(s) && Legal(s.cfg, s.procs, op)
  {
    if op.pid >= s.cfg.maxJobs then
      s
    else
      match op
      case Fork(pid) => VmState.Fork(s, pid)
      case Load(pid, va) => SelectEffect(s, pid); MemLoad(Select(s, pid), va).1
      case Store(pid, va, val) => SelectEffect(s, pid); MemStore(Select(s, pid), va, val)
  }

  /** Every command keeps one home per page, a coherent TLB, and one used frame per fault. */
  lemma ExecKeepsInv(s: Vm, op: Op)
    requires Inv(s) && Legal(s.cfg, s.procs, op)
    ensures var t := Exec(s, op);
            && Inv(t) && t.cfg == s.cfg
            && t.procs == if op.Fork? && op.pid < s.cfg.maxJobs then s.procs + {op.pid} else s.procs
  {
    if op.pid < s.cfg.maxJobs {
      match op
      case Fork(pid) => ForkEffect(s, pid);
      case Load(pid, va) => SelectEffect(s, pid); LoadEffect(Select(s, pid), va);
      case Store(pid, va, val) => SelectEffect(s, pid); StoreEffect(Select(s, pid), va, val);
    }
  }

  lemma InitInv(c: Config)
    requires c.Valid()
    ensures Inv(Init(c))
  {
  }

  /** The processes a command sequence has forked. */
  function Forked(c: Config, ops: seq<Op>): set<nat> {
    if ops == [] then {}
    else
      var op := ops[|ops| - 1];
      Forked(c, ops[..|ops| - 1]) + if op.Fork? && op.pid < c.maxJobs then {op.pid} else {}
  }

  /** A command sequence whose every command is legal when its turn comes. */
  predicate LegalRun(c: Config, ops: seq<Op>) {
    ops == [] ||
      var before := ops[..|ops| - 1];
      LegalRun(c, before) && Legal(c, Forked(c, before), ops[|ops| - 1])
  }

  /** The state after a run; the contract is what holds in every reachable state. */
  ghost function Run(c: Config, ops: seq<Op>): (s: Vm)
    requires c.Valid() && LegalRun(c, ops)
    ensures Inv(s) && s.cfg == c && s.procs == Forked(c, ops)
  {
    if ops == [] then
      InitInv(c);
      Init(c)
    else
      var s := Run(c, ops[..|ops| - 1]);
      ExecKeepsInv(s, ops[|ops| - 1]);
      Exec(s, ops[|ops| - 1])
  }
}
