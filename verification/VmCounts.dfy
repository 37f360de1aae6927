/** The simulator's five counters, and which pages have a saved copy, from the commands. */
module VmCounts {
  import opened Wrappers
  import opened VmState
  import opened VmInvariant
  import opened VmFault
  import opened VmAccess
  import opened VmRuns
  import opened VmTransparency
  import opened VmCorollaries
  import opened VmTrace
  import opened VmTlb

  // ---------------------------------------------------------------- saved pages

  ghost predicate Saved(swap: seq<SwapPage>, o: Owner) {
    exists i :: 0 <= i < |swap| && swap[i].owner == o
  }

  lemma RemoveSaved(swap: seq<SwapPage>, q: Owner, o: Owner)
    requires DistinctOwners(swap)
    ensures Saved(Remove(swap, q), o) <==> Saved(swap, o) && o != q
  {
    hide DistinctOwners, FindSwap;
    RemoveKeeps(swap, q);
    var r := Remove(swap, q);
    if Saved(swap, o) && o != q {
      var i :| 0 <= i < |swap| && swap[i].owner == o;
      Stays(swap, q, i);
    }
    if Saved(r, o) {
      var i :| 0 <= i < |r| && r[i].owner == o;
      assert r[i] in swap;
    }
  }

  lemma Stays(swap: seq<SwapPage>, q: Owner, i: nat)
    requires i < |swap| && swap[i].owner != q
    ensures swap[i] in Remove(swap, q)
  {
    hide FindSwap;
    var k, r := FindSwap(swap, q, 0), Remove(swap, q);
    if k < |swap| {
      assert r[if i < k then i else i - 1] == swap[i];
    }
  }

  lemma PushSaved(swap: seq<SwapPage>, p: SwapPage, o: Owner)
    ensures Saved([p] + swap, o) <==> Saved(swap, o) || o == p.owner
  {
    var r := [p] + swap;
    assert r[0] == p;
    if Saved(swap, o) {
      var i :| 0 <= i < |swap| && swap[i].owner == o;
      assert r[i + 1] == swap[i];
    }
  }

  /** The page that frame `v` pushes out is dirty. */
  predicate DirtyIn(s: Vm, v: nat)
    requires RltNames(s) && v < |s.rlt|
  {
    s.rlt[v].Some? && s.pt[s.rlt[v].value].dirty
  }

  lemma ReplacedSaved(s: Vm, v: nat, q: Owner, write: bool, o: Owner)
    requires Core(s) && v < |s.rlt| && q in s.pt && !Resident(s, q)
    ensures var t := Replaced(s, v, q, write);
            Saved(t.swap, o) <==> o != q && (Saved(s.swap, o) || (DirtyIn(s, v) && s.rlt[v] == Some(o)))
  {
    hide Replaced, Remove, Saved, DistinctOwners;
    ReplacedStorage(s, v, q, write);
    PushedDistinct(s, v);
    RemoveSaved(Pushed(s, v), q, o);
    if DirtyIn(s, v) {
      PushSaved(s.swap, SwapPage(s.rlt[v].value, s.frames[v]), o);
    }
  }

  lemma FoundIsSaved(swap: seq<SwapPage>, q: Owner)
    ensures FindSwap(swap, q, 0) < |swap| <==> Saved(swap, q)
  {
  }

  /** Replacing a page moves a dirty one to the disk and a saved one from it. */
  lemma ReplacedDisk(s: Vm, v: nat, q: Owner, write: bool)
    requires Core(s) && v < |s.rlt| && q in s.pt && !Resident(s, q)
    ensures Replaced(s, v, q, write).counts
      == s.counts.(disk := s.counts.disk + One(DirtyIn(s, v)) + One(Saved(s.swap, q)))
  {
    hide Remove, Rebuild, Saved, FindSwap;
    EvictEffect(s, v);
    var t := Evict(s, v);
    FoundIsSaved(t.swap, q);
    FoundIsSaved(s.swap, q);
    if DirtyIn(s, v) {
      PushSaved(s.swap, SwapPage(s.rlt[v].value, s.frames[v]), q);
    }
  }

  /** What a fault does to the saved pages and the count of disk accesses. */
  lemma FaultDisk(s: Vm, vpn: nat, write: bool, n: nat, o: Owner)
    requires CanAccess(s, vpn) && Core(s) && OccupiedUpTo(s, n)
    requires !Resident(s, Owner(s.current.value, vpn))
    ensures var t, v, q := Fault(s, vpn, write).1, VictimFrame(s), Owner(s.current.value, vpn);
            && (Saved(t.swap, o) <==> o != q && (Saved(s.swap, o) || (DirtyIn(s, v) && s.rlt[v] == Some(o))))
            && t.counts == s.counts.(disk := s.counts.disk + One(DirtyIn(s, v)) + One(Saved(s.swap, q)))
  {
    hide Fault, Replaced, GetFreeFrame, Saved, PageOf;
    FaultIsReplacement(s, vpn, write);
    FreeFrameEffect(s, n);
    var (v, t) := GetFreeFrame(s);
    var q := Owner(s.current.value, vpn);
    ReplacedSaved(t, v, q, write, o);
    ReplacedDisk(t, v, q, write);
  }

  lemma LookupDisk(s: Vm, vpn: nat, write: bool, o: Owner)
    requires Inv(s) && CanAccess(s, vpn)
    ensures var t, v, q := TlbLookup(s, vpn, write).1, VictimFrame(s), CurrentPage(s, vpn);
            if Resident(s, q) then t.swap == s.swap && t.counts.disk == s.counts.disk
            else && (Saved(t.swap, o) <==> o != q && (Saved(s.swap, o) || (DirtyIn(s, v) && s.rlt[v] == Some(o))))
                 && t.counts.disk == s.counts.disk + One(DirtyIn(s, v)) + One(Saved(s.swap, q))
  {
    hide Fault, VictimFrame, Saved, LosslessFrame, TlbFill;
    if !Resident(s, CurrentPage(s, vpn)) {
      var s1 := s.(counts := s.counts.(faults := s.counts.faults + 1));
      CountsDoNotMatter(s, s1);
      MissingIsNotFound(s, vpn);
      FaultDisk(s1, vpn, write, s.counts.faults, o);
    }
  }

  /** The command pushes out a dirty page. */
  ghost predicate PushesDirty(s: Vm, op: Op)
    requires Inv(s)
  {
    Faults(s, op) && DirtyIn(s, VictimFrame(s))
  }

  /** What a command does to the saved pages and to the counters. */
  lemma ExecDisk(s: Vm, op: Op, o: Owner)
    requires Inv(s) && Legal(s.cfg, s.procs, op)
    ensures var t, n, access := Exec(s, op), s.counts, Accesses(s.cfg, op);
            && t.counts == Counts(n.faults + One(Faults(s, op)), n.hits + One(Hits(s, op)),
                                  n.loads + One(access && op.Load?), n.stores + One(access && op.Store?),
                                  n.disk + One(PushesDirty(s, op))
                                    + One(Faults(s, op) && Saved(s.swap, PageName(s.cfg, op.pid, op.va))))
            && (Saved(t.swap, o) <==>
                  if !Faults(s, op) then Saved(s.swap, o)
                  else o != PageName(s.cfg, op.pid, op.va)
                       && (Saved(s.swap, o) || (PushesDirty(s, op) && s.rlt[VictimFrame(s)] == Some(o))))
  {
    hide TlbLookup, VictimFrame, Saved, OccupiedUpTo, Hits;
    ExecTlb(s, op);
    if op.pid < s.cfg.maxJobs {
      if op.Fork? {
        ForkEffect(s, op.pid);
      } else {
        SelectEffect(s, op.pid);
        VictimIgnoresSelect(s, op.pid);
        var u := Select(s, op.pid);
        RunningCanAccess(u, op.pid, op.va);
        LookupDisk(u, Vpn(s.cfg, op.va), op.Store?, o);
        TlbLookupEffect(u, Vpn(s.cfg, op.va), op.Store?);
      }
    }
  }

  /** In every reachable state a page has a saved copy exactly when it is not resident and its last fault was
      taken by a store. */
  lemma {:induction false} SavedPages(c: Config, ops: seq<Op>, o: Owner)
    requires c.Valid() && LegalRun(c, ops)
    ensures Saved(Run(c, ops).swap, o) <==> !Resident(Run(c, ops), o) && StoreFaulted(c, ops, o)
  {
    hide Exec, VictimFrame, Saved, OccupiedUpTo, Core;
    if ops == [] {
      NothingSaved(c, o);
    } else {
      var before, op := ops[..|ops| - 1], ops[|ops| - 1];
      var s := Run(c, before);
      SavedPages(c, before, o);
      ExecDisk(s, op, o);
      ExecEntries(s, op, o);
      if Faults(s, op) {
        SizesOf(s);
        VictimIsResident(s);
        FaultedHasEntry(s, op);
        if s.rlt[VictimFrame(s)] == Some(o) {
          DirtyIsStoreFaulted(c, before, o);
        }
      }
    }
  }

  lemma NothingSaved(c: Config, o: Owner)
    requires c.Valid()
    ensures LegalRun(c, []) && !Saved(Run(c, []).swap, o) && !StoreFaulted(c, [], o)
  {
  }

  lemma VictimIsResident(s: Vm)
    requires Inv(s)
    ensures var v := VictimFrame(s); s.rlt[v].Some? ==> Resident(s, s.rlt[v].value)
  {
  }

  // ---------------------------------------------------------------- the counters

  /** What a command does: a load, a store, a fault, a hit, a page written to the disk because its last fault
      was a store, a page read from it for the same reason. */
  datatype Sort = Loads | Stores | Faulting | Hitting | Writing | Reading

  ghost predicate Does(c: Config, before: seq<Op>, op: Op, sort: Sort)
    requires c.Valid() && LegalRun(c, before)
  {
    var s := Run(c, before);
    match sort
    case Loads => Accesses(c, op) && op.Load?
    case Stores => Accesses(c, op) && op.Store?
    case Faulting => Faults(s, op)
    case Hitting => Hits(s, op)
    case Writing => PushedOut(s, op).Some? && StoreFaulted(c, before, PushedOut(s, op).value)
    case Reading => Faults(s, op) && StoreFaulted(c, before, PageName(c, op.pid, op.va))
  }

  /** The commands of a run that do it, by their positions. */
  ghost function Doing(c: Config, ops: seq<Op>, sort: Sort): set<nat>
    requires c.Valid()
  {
    set i: nat | i < |ops| && LegalRun(c, ops[..i]) && Does(c, ops[..i], ops[i], sort)
  }

  lemma DoneEarlier(c: Config, ops: seq<Op>, sort: Sort, i: nat)
    requires c.Valid() && ops != [] && LegalRun(c, ops[..|ops| - 1])
    ensures var n := |ops| - 1;
            i in Doing(c, ops, sort) <==> i in Doing(c, ops[..n], sort) || (i == n && Does(c, ops[..n], ops[n], sort))
  {
    hide LegalRun, Does;
    var n := |ops| - 1;
    if i < n {
      assert ops[..n][..i] == ops[..i];
    }
  }

  lemma DoingAfter(c: Config, ops: seq<Op>, sort: Sort)
    requires c.Valid() && ops != [] && LegalRun(c, ops[..|ops| - 1])
    ensures var n := |ops| - 1;
            |Doing(c, ops, sort)| == |Doing(c, ops[..n], sort)| + One(Does(c, ops[..n], ops[n], sort))
  {
    var n := |ops| - 1;
    var was := Doing(c, ops[..n], sort);
    assert forall i :: i in was ==> i < n;
    hide *;
    forall i: nat
      ensures i in Doing(c, ops, sort) <==> i in was || (i == n && Does(c, ops[..n], ops[n], sort))
    {
      DoneEarlier(c, ops, sort, i);
    }
    OneMoreIn(was, Doing(c, ops, sort), n, Does(c, ops[..n], ops[n], sort));
  }

  /** What a command counts after a run. */
  lemma CommandCounts(c: Config, before: seq<Op>, op: Op)
    requires c.Valid() && LegalRun(c, before) && Legal(c, Forked(c, before), op)
    ensures var s := Run(c, before);
            var n := s.counts;
            Exec(s, op).counts == Counts(
              n.faults + One(Does(c, before, op, Faulting)), n.hits + One(Does(c, before, op, Hitting)),
              n.loads + One(Does(c, before, op, Loads)), n.stores + One(Does(c, before, op, Stores)),
              n.disk + One(Does(c, before, op, Writing)) + One(Does(c, before, op, Reading)))
  {
    hide Exec, Run, LegalRun, Forked, Legal, VictimFrame, Saved, OccupiedUpTo, Hits, StoreFaulted;
    var s := Run(c, before);
    ExecDisk(s, op, Owner(0, 0));
    if Faults(s, op) {
      SavedPages(c, before, PageName(c, op.pid, op.va));
      SizesOf(s);
      VictimIsResident(s);
      if s.rlt[VictimFrame(s)].Some? {
        DirtyIsStoreFaulted(c, before, s.rlt[VictimFrame(s)].value);
      }
    }
  }

  /** After every run each counter is the number of commands that do what it counts; the disk accesses are the
      pages pushed out whose last fault was a store, and the pages faulted in whose previous fault was. */
  lemma {:induction false} Counters(c: Config, ops: seq<Op>)
    requires c.Valid() && LegalRun(c, ops)
    ensures Run(c, ops).counts == Counts(
      |Doing(c, ops, Faulting)|, |Doing(c, ops, Hitting)|, |Doing(c, ops, Loads)|, |Doing(c, ops, Stores)|,
      |Doing(c, ops, Writing)| + |Doing(c, ops, Reading)|)
  {
    hide Does, Doing, Exec, Inv, Legal;
    if ops == [] {
      NothingDone(c);
    } else {
      var before, op := ops[..|ops| - 1], ops[|ops| - 1];
      Counters(c, before);
      CommandCounts(c, before, op);
      DoingAfter(c, ops, Faulting);
      DoingAfter(c, ops, Hitting);
      DoingAfter(c, ops, Loads);
      DoingAfter(c, ops, Stores);
      DoingAfter(c, ops, Writing);
      DoingAfter(c, ops, Reading);
    }
  }

  lemma NothingDone(c: Config)
    requires c.Valid()
    ensures LegalRun(c, []) && Run(c, []).counts == Counts(0, 0, 0, 0, 0)
    ensures forall sort :: Doing(c, [], sort) == {}
  {
  }
}
