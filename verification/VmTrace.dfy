/**
  The condition for a flat memory, read off the commands: whether each evicted page was last faulted in by a
  store, or holds nothing but zeros as far as its process has stored.
*/
module VmTrace {
  import opened Wrappers
  import opened VmState
  import opened VmInvariant
  import opened VmFault
  import opened VmRuns
  import opened VmTransparency
  import opened VmCorollaries

  /** The last fault on page `o` was taken by a store. */
  ghost predicate StoreFaulted(c: Config, ops: seq<Op>, o: Owner)
    requires c.Valid() && LegalRun(c, ops)
  {
    ops != [] &&
    var before, op := ops[..|ops| - 1], ops[|ops| - 1];
    if Faults(Run(c, before), op) && PageName(c, op.pid, op.va) == o then op.Store? else StoreFaulted(c, before, o)
  }

  /** The process has left nothing but zeros in page `o`. */
  ghost predicate OnlyZeros(c: Config, ops: seq<Op>, o: Owner)
    requires c.Valid()
  {
    forall va :: PageName(c, o.pid, va) == o ==> LastStore(ops, o.pid, va) == 0
  }

  /** The page that a command pushes out. */
  ghost function PushedOut(s: Vm, op: Op): Option<Owner>
    requires Inv(s)
  {
    if Faults(s, op) then s.rlt[VictimFrame(s)] else None
  }

  /** After the run, the command pushes out no page, or one whose last fault was a store, or one of zeros. */
  ghost predicate SafeNext(c: Config, ops: seq<Op>, op: Op)
    requires c.Valid() && LegalRun(c, ops)
  {
    match PushedOut(Run(c, ops), op)
    case None => true
    case Some(o) => StoreFaulted(c, ops, o) || OnlyZeros(c, ops, o)
  }

  ghost predicate SafeTrace(c: Config, ops: seq<Op>)
    requires c.Valid() && LegalRun(c, ops)
  {
    ops == [] || (SafeTrace(c, ops[..|ops| - 1]) && SafeNext(c, ops[..|ops| - 1], ops[|ops| - 1]))
  }

  /** In every reachable state the dirty bit of a resident page says how it was last faulted in. */
  lemma {:induction false} DirtyIsStoreFaulted(c: Config, ops: seq<Op>, o: Owner)
    requires c.Valid() && LegalRun(c, ops) && Resident(Run(c, ops), o)
    ensures Run(c, ops).pt[o].dirty <==> StoreFaulted(c, ops, o)
  {
    hide Exec, VictimFrame, Core, OccupiedUpTo;
    if ops == [] {
      assert false;
    } else {
      var before, op := ops[..|ops| - 1], ops[|ops| - 1];
      var s := Run(c, before);
      ExecEntries(s, op, o);
      if Faults(s, op) && PageName(c, op.pid, op.va) == o {
        FaultedHasEntry(s, op);
      } else {
        DirtyIsStoreFaulted(c, before, o);
      }
    }
  }

  lemma FaultedHasEntry(s: Vm, op: Op)
    requires Inv(s) && Legal(s.cfg, s.procs, op) && Faults(s, op)
    ensures PageName(s.cfg, op.pid, op.va) in s.pt
  {
    AddressSplits(s.cfg, op.va);
  }

  /** A resident page is zeros exactly when its process sees nothing else in it. */
  lemma ZerosSeen(s: Vm, o: Owner)
    requires Inv(s) && Resident(s, o)
    ensures s.pt[o].pfn < |s.frames|
    ensures s.frames[s.pt[o].pfn] == s.cfg.ZeroPage() <==>
      forall va :: PageName(s.cfg, o.pid, va) == o ==> ByteAt(s, o.pid, va) == 0
  {
    var p := s.frames[s.pt[o].pfn];
    assert p == PageOf(s, o);
    if forall va :: PageName(s.cfg, o.pid, va) == o ==> ByteAt(s, o.pid, va) == 0 {
      forall i | 0 <= i < s.cfg.pageSize ensures p[i] == 0 {
        var va := AddressJoins(s.cfg, o.vpn, i);
        assert PageName(s.cfg, o.pid, va) == o && ByteAt(s, o.pid, va) == p[i];
      }
      assert p == s.cfg.ZeroPage();
    } else {
      var va :| PageName(s.cfg, o.pid, va) == o && ByteAt(s, o.pid, va) != 0;
      AddressSplits(s.cfg, va);
      assert p[Offset(s.cfg, va)] != 0;
    }
  }

  /** Once the memory is flat, the next command loses nothing exactly when it is safe by the trace. */
  lemma SafeIsLossless(c: Config, ops: seq<Op>, op: Op)
    requires c.Valid() && LegalRun(c, ops) && FlatAfter(c, ops)
    ensures SafeNext(c, ops, op) <==> Lossless(Run(c, ops), op)
  {
    hide Run, Forked, LegalRun, StoreFaulted, VictimFrame, LoadValue, ByteAt, LastStore;
    var s := Run(c, ops);
    if Faults(s, op) && s.rlt[VictimFrame(s)].Some? {
      var o := s.rlt[VictimFrame(s)].value;
      ResidentRebuildsZero(s, o);
      DirtyIsStoreFaulted(c, ops, o);
      ZerosSeen(s, o);
      forall va ensures ByteAt(s, o.pid, va) == LastStore(ops, o.pid, va) {
        LoadValueIsByteAt(s, o.pid, va);
      }
    }
  }

  lemma {:induction false} SafeTraceIsLossless(c: Config, ops: seq<Op>)
    requires c.Valid() && LegalRun(c, ops)
    ensures SafeTrace(c, ops) <==> LosslessRun(c, ops)
  {
    hide Run, SafeNext, Lossless, FlatAfter;
    if ops != [] {
      var before := ops[..|ops| - 1];
      SafeTraceIsLossless(c, before);
      if LosslessRun(c, before) {
        LosslessIsFlat(c, before);
        SafeIsLossless(c, before, ops[|ops| - 1]);
      }
    }
  }

  /** The virtual memory is flat throughout a run exactly when every page it pushes out was last faulted in by
      a store, or has zeros as the last values stored all over it. */
  lemma {:induction false} TransparentTrace(c: Config, ops: seq<Op>)
    requires c.Valid() && LegalRun(c, ops)
    ensures FlatThroughout(c, ops) <==> SafeTrace(c, ops)
  {
    hide *;
    TransparentIff(c, ops);
    SafeTraceIsLossless(c, ops);
  }
}
