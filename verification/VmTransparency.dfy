/**
  When the simulated virtual memory is a flat memory: exactly when no run of commands evicts a page
  that is clean in its page table but no longer what a fault would rebuild.
*/
module VmTransparency {
  import opened Wrappers
  import opened VmState
  import opened VmInvariant
  import opened VmFault
  import opened VmRuns

  // ---------------------------------------------------------------- the flat memory

  /** The last value process `pid` stored at `va`, or 0. */
  function LastStore(ops: seq<Op>, pid: nat, va: Addr): Byte {
    if ops == [] then 0
    else
      var op := ops[|ops| - 1];
      if op.Store? && op.pid == pid && op.va == va then op.val else LastStore(ops[..|ops| - 1], pid, va)
  }

  /** What process `pid` reads at `va`, were it to load it now. */
  ghost function LoadValue(s: Vm, pid: nat, va: Addr): Byte
    requires Inv(s) && pid in s.procs
  {
    SelectEffect(s, pid);
    MemLoad(Select(s, pid), va).0
  }

  lemma LoadValueIsByteAt(s: Vm, pid: nat, va: Addr)
    requires Inv(s) && pid in s.procs
    ensures LoadValue(s, pid, va) == ByteAt(s, pid, va)
  {
    SelectEffect(s, pid);
    LoadEffect(Select(s, pid), va);
  }

  // ---------------------------------------------------------------- one command

  /** The command is a load or store the simulator carries out. */
  predicate Accesses(c: Config, op: Op) {
    !op.Fork? && op.pid < c.maxJobs
  }

  /** The command faults: its page is not resident when it runs. */
  ghost predicate Faults(s: Vm, op: Op)
    requires s.cfg.pageSize > 0
  {
    Accesses(s.cfg, op) && !Resident(s, PageName(s.cfg, op.pid, op.va))
  }

  /** The command does not push out a clean page whose bytes a fault would not rebuild. */
  ghost predicate Lossless(s: Vm, op: Op)
    requires Inv(s)
  {
    Faults(s, op) ==> LosslessFrame(s, VictimFrame(s))
  }

  /** The victim of a command is chosen by the page tables, not by who runs. */
  lemma VictimIgnoresSelect(s: Vm, pid: nat)
    requires Inv(s)
    ensures VictimFrame(Select(s, pid)) == VictimFrame(s)
  {
    if FirstFree(s.rlt, 0) == |s.rlt| {
      SweepIgnoresSelect(s, Select(s, pid), 0);
    }
  }

  lemma {:induction false} SweepIgnoresSelect(s: Vm, t: Vm, i: nat)
    requires t == s.(tlb := t.tlb, current := t.current) && 0 < |s.rlt| && i <= |s.rlt| && RltNames(s)
    requires forall f :: i <= f < |s.rlt| ==> s.rlt[f].Some?
    ensures Sweep(t, i).0 == Sweep(s, i).0
    decreases |s.rlt| - i
  {
    if i < |s.rlt| {
      var o := s.rlt[i].value;
      if s.pt[o].used {
        SweepIgnoresSelect(s.(pt := s.pt[o := s.pt[o].(used := false)]),
                           t.(pt := t.pt[o := t.pt[o].(used := false)]), i + 1);
      }
    }
  }

  /** The page a command would lose, in terms of the state before the context switch. */
  lemma LosesIsNotLossless(s: Vm, op: Op, o: Owner)
    requires Inv(s) && Accesses(s.cfg, op) && op.pid in s.procs
    ensures var u := Select(s, op.pid);
            && Inv(u) && u.current == Some(op.pid) && u.cfg == s.cfg && CanAccess(u, Vpn(s.cfg, op.va))
            && (Loses(u, Vpn(s.cfg, op.va), o) <==> !Lossless(s, op) && s.rlt[VictimFrame(s)] == Some(o))
  {
    SelectEffect(s, op.pid);
    VictimIgnoresSelect(s, op.pid);
    RunningCanAccess(Select(s, op.pid), op.pid, op.va);
  }

  /** A command changes the byte it stores, zeroes the page it loses, and changes nothing else. */
  lemma StepBytes(s: Vm, op: Op, pid: nat, va: Addr)
    requires Inv(s) && Legal(s.cfg, s.procs, op) && pid in s.procs
    ensures var t := Exec(s, op);
            Inv(t) && ByteAt(t, pid, va) ==
              if op.Store? && op.pid == pid && op.va == va then op.val
              else if !Lossless(s, op) && s.rlt[VictimFrame(s)] == Some(PageName(s.cfg, pid, va)) then 0
              else ByteAt(s, pid, va)
  {
    hide MemLoad, MemStore, VmState.Fork, PageOf, Select, LosslessFrame, Resident, RltNames;
    ExecKeepsInv(s, op);
    if op.Fork? {
      if op.pid < s.cfg.maxJobs {
        ForkBytes(s, op.pid, pid, va);
      }
    } else if op.pid < s.cfg.maxJobs {
      SelectEffect(s, op.pid);
      LosesIsNotLossless(s, op, PageName(s.cfg, pid, va));
      var u := Select(s, op.pid);
      if op.Load? {
        LoadBytes(u, op.va, pid, va);
      } else {
        StoreBytes(u, op.va, op.val, pid, va);
      }
    }
  }

  lemma ForkBytes(s: Vm, pid: nat, q: nat, va: Addr)
    requires Inv(s) && pid !in s.procs && pid < s.cfg.maxJobs
    ensures var t := VmState.Fork(s, pid);
            Inv(t) && ByteAt(t, q, va) == ByteAt(s, q, va)
  {
    ForkEffect(s, pid);
    AddressSplits(s.cfg, va);
  }

  /** A losing command zeroes some byte that was not zero, and stores nothing there. */
  lemma LossShows(s: Vm, op: Op) returns (pid: nat, va: Addr)
    requires Inv(s) && Legal(s.cfg, s.procs, op) && !Lossless(s, op)
    ensures pid in s.procs && ByteAt(s, pid, va) != 0
    ensures Inv(Exec(s, op)) && ByteAt(Exec(s, op), pid, va) == 0
    ensures !(op.Store? && op.pid == pid && op.va == va)
  {
    var v := VictimFrame(s);
    var o := s.rlt[v].value;
    ResidentRebuildsZero(s, o);
    var i :| 0 <= i < s.cfg.pageSize && s.frames[v][i] != 0;
    pid := o.pid;
    va := AddressJoins(s.cfg, o.vpn, i);
    AddressSplits(s.cfg, va);
    assert PageName(s.cfg, pid, va) == o;
    StepBytes(s, op, pid, va);
  }

  // ---------------------------------------------------------------- whole runs

  ghost predicate LosslessRun(c: Config, ops: seq<Op>)
    requires c.Valid() && LegalRun(c, ops)
  {
    ops == [] ||
      var before := ops[..|ops| - 1];
      LosslessRun(c, before) && Lossless(Run(c, before), ops[|ops| - 1])
  }

  /** After a run, every load returns the last value its process stored there, or 0. */
  ghost predicate FlatAfter(c: Config, ops: seq<Op>)
    requires c.Valid() && LegalRun(c, ops)
  {
    forall pid, va :: pid in Forked(c, ops) ==> LoadValue(Run(c, ops), pid, va) == LastStore(ops, pid, va)
  }

  /** The same after every prefix of the run. */
  ghost predicate FlatThroughout(c: Config, ops: seq<Op>)
    requires c.Valid() && LegalRun(c, ops)
  {
    FlatAfter(c, ops) && (ops != [] ==> FlatThroughout(c, ops[..|ops| - 1]))
  }

  /** A process that was never forked has stored nothing. */
  lemma {:induction false} UnforkedStoredNothing(c: Config, ops: seq<Op>, pid: nat, va: Addr)
    requires LegalRun(c, ops) && pid < c.maxJobs && pid !in Forked(c, ops)
    ensures LastStore(ops, pid, va) == 0
  {
    if ops != [] {
      UnforkedStoredNothing(c, ops[..|ops| - 1], pid, va);
    }
  }

  /** A page of a process that has not been forked shows zeros. */
  lemma UnforkedReadsZero(s: Vm, pid: nat, va: Addr)
    requires Inv(s) && pid !in s.procs
    ensures ByteAt(s, pid, va) == 0
  {
    AddressSplits(s.cfg, va);
    var o := PageName(s.cfg, pid, va);
    assert FindSwap(s.swap, o, 0) == |s.swap|;
  }

  lemma {:induction false} LosslessIsFlat(c: Config, ops: seq<Op>)
    requires c.Valid() && LegalRun(c, ops) && LosslessRun(c, ops)
    ensures FlatThroughout(c, ops)
  {
    var s := Run(c, ops);
    if ops == [] {
      assert Forked(c, ops) == {};
    } else {
      var before, op := ops[..|ops| - 1], ops[|ops| - 1];
      LosslessIsFlat(c, before);
      var r := Run(c, before);
      forall pid, va | pid in Forked(c, ops)
        ensures LoadValue(s, pid, va) == LastStore(ops, pid, va)
      {
        LoadValueIsByteAt(s, pid, va);
        if pid in r.procs {
          LoadValueIsByteAt(r, pid, va);
          StepBytes(r, op, pid, va);
        } else {
          UnforkedReadsZero(r, pid, va);
          UnforkedStoredNothing(c, before, pid, va);
          ForkEffect(r, pid);
        }
      }
    }
  }

  lemma {:induction false} FlatIsLossless(c: Config, ops: seq<Op>)
    requires c.Valid() && LegalRun(c, ops) && FlatThroughout(c, ops)
    ensures LosslessRun(c, ops)
  {
    if ops != [] {
      var before, op := ops[..|ops| - 1], ops[|ops| - 1];
      FlatIsLossless(c, before);
      var r := Run(c, before);
      if !Lossless(r, op) {
        var pid, va := LossShows(r, op);
        LoadValueIsByteAt(r, pid, va);
        LoadValueIsByteAt(Run(c, ops), pid, va);
        assert false;
      }
    }
  }

  /** The virtual memory is a flat memory throughout a run exactly when no command of the run evicts a
      clean page that has been stored to since it was restored. */
  lemma {:induction false} TransparentIff(c: Config, ops: seq<Op>)
    requires c.Valid() && LegalRun(c, ops)
    ensures FlatThroughout(c, ops) <==> LosslessRun(c, ops)
  {
    if LosslessRun(c, ops) {
      LosslessIsFlat(c, ops);
    }
    if FlatThroughout(c, ops) {
      FlatIsLossless(c, ops);
    }
  }
}
