/** Two conditions a caller can meet under which the virtual memory is flat, and a run for which it is not. */
module VmCorollaries {
  import opened Wrappers
  import opened VmState
  import opened VmInvariant
  import opened VmFault
  import opened VmAccess
  import opened VmRuns
  import opened VmTransparency

  /** The dirty bit of page `o` after a command: set by the access that faults the page in, and by no hit. */
  ghost function DirtyAfter(s: Vm, op: Op, o: Owner): bool
    requires s.cfg.pageSize > 0 && o in s.pt
  {
    if Faults(s, op) && o == PageName(s.cfg, op.pid, op.va) then op.Store? else s.pt[o].dirty
  }

  /** What a command does to the valid and dirty bits of page `o`, and to the number of faults. */
  lemma ExecEntries(s: Vm, op: Op, o: Owner)
    requires Inv(s) && Legal(s.cfg, s.procs, op)
    ensures var t := Exec(s, op);
            && t.counts.faults == s.counts.faults + (if Faults(s, op) then 1 else 0)
            && (!Faults(s, op) ==> (Resident(t, o) <==> Resident(s, o)))
            && (o in s.pt ==> o in t.pt && t.pt[o].dirty == DirtyAfter(s, op, o))
            && (Faults(s, op) ==>
                  (Resident(t, o) <==>
                    o == PageName(s.cfg, op.pid, op.va) || (Resident(s, o) && s.rlt[VictimFrame(s)] != Some(o))))
  {
    hide TlbLookup, VictimFrame;
    if op.pid < s.cfg.maxJobs {
      if op.Fork? {
        ForkEffect(s, op.pid);
      } else {
        SelectEffect(s, op.pid);
        VictimIgnoresSelect(s, op.pid);
        var u := Select(s, op.pid);
        RunningCanAccess(u, op.pid, op.va);
        TlbLookupEntries(u, Vpn(s.cfg, op.va), op.Store?, o);
        TlbLookupEffect(u, Vpn(s.cfg, op.va), op.Store?);
      }
    }
  }

  // ---------------------------------------------------------------- the touched pages fit

  /** The pages a run loads from or stores to. */
  function Touched(c: Config, ops: seq<Op>): set<Owner>
    requires c.pageSize > 0
  {
    if ops == [] then {}
    else
      var op := ops[|ops| - 1];
      Touched(c, ops[..|ops| - 1]) + if Accesses(c, op) then {PageName(c, op.pid, op.va)} else {}
  }

  /** A fault with a free frame left loses nothing. */
  lemma FreeFrameIsLossless(s: Vm, op: Op)
    requires Inv(s) && s.counts.faults < s.cfg.numFrames
    ensures Lossless(s, op) && s.rlt[VictimFrame(s)] == None
  {
    FreeFrameEffect(s, s.counts.faults);
  }

  /** The resident pages are those of `pages`, and each took one fault. */
  ghost predicate Holds(s: Vm, pages: set<Owner>) {
    s.counts.faults == |pages| && forall o: Owner :: Resident(s, o) <==> o in pages
  }

  lemma NoFaultIsLossless(s: Vm, op: Op)
    requires Inv(s) && !Faults(s, op)
    ensures Lossless(s, op)
  {
  }

  lemma SizesOf(s: Vm)
    requires Inv(s)
    ensures s.cfg.Valid() && |s.rlt| == s.cfg.numFrames && 0 < |s.rlt| && RltNames(s)
  {
  }

  lemma FittingStep(s: Vm, op: Op, before: set<Owner>, after: set<Owner>)
    requires Inv(s) && Legal(s.cfg, s.procs, op) && Holds(s, before)
    requires after == before + if Accesses(s.cfg, op) then {PageName(s.cfg, op.pid, op.va)} else {}
    requires |after| <= s.cfg.numFrames
    ensures Lossless(s, op) && Holds(Exec(s, op), after)
  {
    hide Exec, VictimFrame, Inv, Resident, Lossless, Legal;
    SubsetSize(before, after);
    SizesOf(s);
    if Faults(s, op) {
      assert |after| == |before| + 1;
      FreeFrameIsLossless(s, op);
    } else {
      assert after == before;
      NoFaultIsLossless(s, op);
    }
    forall o: Owner ensures Resident(Exec(s, op), o) <==> o in after {
      ExecEntries(s, op, o);
    }
    ExecEntries(s, op, Owner(0, 0));
  }

  /** While the touched pages fit in the frames, they are all resident, each took one fault, and nothing
      is evicted. */
  lemma {:induction false} FittingRun(c: Config, ops: seq<Op>)
    requires c.Valid() && LegalRun(c, ops) && |Touched(c, ops)| <= c.numFrames
    ensures LosslessRun(c, ops) && Holds(Run(c, ops), Touched(c, ops))
  {
    hide Exec, Holds, Lossless, Inv;
    if ops == [] {
      HoldsAtStart(c);
    } else {
      var before, op := ops[..|ops| - 1], ops[|ops| - 1];
      SubsetSize(Touched(c, before), Touched(c, ops));
      FittingRun(c, before);
      FittingStep(Run(c, before), op, Touched(c, before), Touched(c, ops));
    }
  }

  lemma HoldsAtStart(c: Config)
    requires c.Valid()
    ensures Holds(Init(c), {})
  {
  }

  /** A run whose touched pages fit in physical memory sees a flat memory. */
  lemma {:induction false} FittingRunIsFlat(c: Config, ops: seq<Op>)
    requires c.Valid() && LegalRun(c, ops) && |Touched(c, ops)| <= c.numFrames
    ensures FlatThroughout(c, ops)
  {
    FittingRun(c, ops);
    TransparentIff(c, ops);
  }

  // ---------------------------------------------------------------- every fault is taken by a store

  /** Every page the run faults in is faulted in by a store. */
  ghost predicate StoresFault(c: Config, ops: seq<Op>)
    requires c.Valid() && LegalRun(c, ops)
  {
    ops == [] ||
      var before := ops[..|ops| - 1];
      StoresFault(c, before) && (Faults(Run(c, before), ops[|ops| - 1]) ==> ops[|ops| - 1].Store?)
  }

  ghost predicate AllDirty(s: Vm) {
    forall o: Owner :: Resident(s, o) ==> s.pt[o].dirty
  }

  lemma StoresFaultStep(s: Vm, op: Op)
    requires Inv(s) && Legal(s.cfg, s.procs, op) && AllDirty(s)
    requires Faults(s, op) ==> op.Store?
    ensures Lossless(s, op) && AllDirty(Exec(s, op))
  {
    hide Exec, VictimFrame;
    if s.rlt[VictimFrame(s)].Some? {
      assert Resident(s, s.rlt[VictimFrame(s)].value);
    }
    forall o: Owner | Resident(Exec(s, op), o) ensures Exec(s, op).pt[o].dirty {
      ExecEntries(s, op, o);
      if o !in s.pt {
        assert !Resident(s, o);
        if Faults(s, op) {
          SelectEffect(s, op.pid);
          RunningCanAccess(Select(s, op.pid), op.pid, op.va);
        }
      }
    }
  }

  lemma {:induction false} StoresFaultRun(c: Config, ops: seq<Op>)
    requires c.Valid() && LegalRun(c, ops) && StoresFault(c, ops)
    ensures LosslessRun(c, ops) && AllDirty(Run(c, ops))
  {
    hide Exec, Lossless, Inv, AllDirty;
    if ops == [] {
      AllDirtyAtStart(c);
    } else {
      var before, op := ops[..|ops| - 1], ops[|ops| - 1];
      StoresFaultRun(c, before);
      StoresFaultStep(Run(c, before), op);
    }
  }

  lemma AllDirtyAtStart(c: Config)
    requires c.Valid()
    ensures AllDirty(Init(c))
  {
  }

  /** A run whose every fault is taken by a store sees a flat memory. */
  lemma StoresFaultIsFlat(c: Config, ops: seq<Op>)
    requires c.Valid() && LegalRun(c, ops) && StoresFault(c, ops)
    ensures FlatThroughout(c, ops)
  {
    StoresFaultRun(c, ops);
    TransparentIff(c, ops);
  }

  // ---------------------------------------------------------------- a run that loses a store

  const TINY: Config := Config(2, 1, 4, 8)

  /** Load page 0, store to it (a hit, so it stays clean), then load page 1 into the only frame. */
  function LosingRun(): seq<Op> {
    [Op.Fork(0), Load(0, 0), Store(0, 0, 7), Load(0, 2)]
  }

  lemma RunSnoc(c: Config, before: seq<Op>, op: Op)
    requires c.Valid() && LegalRun(c, before) && Legal(c, Forked(c, before), op)
    ensures LegalRun(c, before + [op]) && Forked(c, before + [op]) == Run(c, before + [op]).procs
    ensures Run(c, before + [op]) == Exec(Run(c, before), op)
  {
    assert (before + [op])[..|before|] == before;
  }

  /** After the hit, address 0 holds 7 in a clean page. */
  lemma StoreHitsClean(c: Config) returns (s: Vm)
    requires c == TINY
    ensures c.Valid() && LegalRun(c, LosingRun()[..3]) && s == Run(c, LosingRun()[..3])
    ensures s.procs == {0} && Resident(s, Owner(0, 0)) && !s.pt[Owner(0, 0)].dirty && !Resident(s, Owner(0, 1))
    ensures ByteAt(s, 0, 0) == 7
  {
    hide Exec, VictimFrame, ByteAt;
    var ops := LosingRun();
    assert ops[..0] == [] && ops[..1] == [] + [ops[0]];
    assert ops[..2] == ops[..1] + [ops[1]] && ops[..3] == ops[..2] + [ops[2]];
    var o := Owner(0, 0);
    RunSnoc(c, [], ops[0]);
    RunSnoc(c, ops[..1], ops[1]);
    RunSnoc(c, ops[..2], ops[2]);
    var s0, s1, s2 := Run(c, []), Run(c, ops[..1]), Run(c, ops[..2]);
    s := Run(c, ops[..3]);
    assert o in s1.pt;
    ExecEntries(s0, ops[0], o);
    ExecEntries(s1, ops[1], o);
    ExecEntries(s2, ops[2], o);
    ExecEntries(s0, ops[0], Owner(0, 1));
    ExecEntries(s1, ops[1], Owner(0, 1));
    ExecEntries(s2, ops[2], Owner(0, 1));
    StepBytes(s2, ops[2], 0, 0);
  }

  /** The store of 7 is lost: the next load of address 0 returns 0. */
  lemma LosingRunIsNotFlat()
    ensures TINY.Valid() && LegalRun(TINY, LosingRun())
    ensures !FlatThroughout(TINY, LosingRun())
    ensures LastStore(LosingRun(), 0, 0) == 7 && LoadValue(Run(TINY, LosingRun()), 0, 0) == 0
  {
    hide Exec, ByteAt, LoadValue, VictimFrame, LastStore, Core, OccupiedUpTo;
    var c, ops := TINY, LosingRun();
    var s := StoreHitsClean(c);
    assert ops == ops[..3] + [ops[3]];
    RunSnoc(c, ops[..3], ops[3]);
    LastOfLosingRun();
    OneFrameLoses(s, ops[3]);
    var t := Run(c, ops);
    LoadValueIsByteAt(t, 0, 0);
    assert 0 in t.procs;
  }

  lemma LastOfLosingRun()
    ensures LastStore(LosingRun(), 0, 0) == 7
  {
    var ops := LosingRun();
    assert ops[..3] == [Op.Fork(0), Load(0, 0), Store(0, 0, 7)];
    assert LastStore(ops[..3], 0, 0) == 7;
  }

  /** With one frame, loading page 1 pushes out page 0; when that is clean its bytes become zero. */
  lemma OneFrameLoses(s: Vm, op: Op)
    requires Inv(s) && s.cfg == TINY && s.procs == {0} && op == Load(0, 2)
    requires Resident(s, Owner(0, 0)) && !s.pt[Owner(0, 0)].dirty && !Resident(s, Owner(0, 1))
    requires ByteAt(s, 0, 0) != 0
    ensures Inv(Exec(s, op)) && ByteAt(Exec(s, op), 0, 0) == 0
  {
    var o := Owner(0, 0);
    assert VictimFrame(s) == 0 && s.rlt[0] == Some(o);
    assert PageName(s.cfg, 0, 0) == o && PageName(s.cfg, 0, 2) == Owner(0, 1);
    ResidentRebuildsZero(s, o);
    StepBytes(s, op, 0, 0);
  }
}
