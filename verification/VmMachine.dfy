/** The simulator as it stores its state: flat memory, arrays and counters updated in place. */
module VmMachine {
  import opened Wrappers
  import opened VmState
  import opened VmInvariant
  import opened VmFault
  import opened VmAccess
  import opened VmRuns
  import opened VmTransparency
  import opened VmSwapList

  // ---------------------------------------------------------------- flat memory as frames

  /** Where frame `f` starts. */
  function Base(f: nat, ps: nat): nat {
    if f == 0 then 0 else Base(f - 1, ps) + ps
  }

  lemma {:induction false} BaseIsProduct(f: nat, ps: nat)
    ensures Base(f, ps) == f * ps
  {
    if f > 0 {
      BaseIsProduct(f - 1, ps);
    }
  }

  /** Frames do not overlap. */
  lemma {:induction false} FrameFits(f: nat, n: nat, ps: nat)
    requires f < n
    ensures Base(f, ps) + ps <= Base(n, ps)
  {
    if f < n - 1 {
      FrameFits(f, n - 1, ps);
    }
  }

  /** The bytes of frame `f` of a flat memory. */
  function FrameAt(m: seq<Byte>, ps: nat, f: nat): Page
    requires Base(f, ps) + ps <= |m|
  {
    m[Base(f, ps)..Base(f, ps) + ps]
  }

  /** The first `n` frames of a flat memory. */
  ghost function Frames(m: seq<Byte>, ps: nat, n: nat): (fs: seq<Page>)
    requires Base(n, ps) <= |m|
    ensures |fs| == n
    ensures forall f :: 0 <= f < n ==> Base(f, ps) + ps <= |m| && fs[f] == FrameAt(m, ps, f)
  {
    if n == 0 then [] else Frames(m, ps, n - 1) + [FrameAt(m, ps, n - 1)]
  }

  /** `m'` is `m` with `data` copied in at `a`. */
  ghost predicate Copied(m: seq<Byte>, m': seq<Byte>, a: nat, data: Page) {
    && |m'| == |m| && a + |data| <= |m|
    && (forall i :: 0 <= i < |m| ==> m'[i] == if a <= i < a + |data| then data[i - a] else m[i])
  }

  lemma CopiedSlice(m: seq<Byte>, m': seq<Byte>, a: nat, data: Page, b: nat)
    requires Copied(m, m', a, data) && b + |data| <= |m|
    ensures b == a ==> m'[b..b + |data|] == data
    ensures b + |data| <= a || a + |data| <= b ==> m'[b..b + |data|] == m[b..b + |data|]
  {
  }

  /** Overwriting the bytes of one frame changes that frame only. */
  lemma FramesAfterCopy(m: seq<Byte>, m': seq<Byte>, ps: nat, n: nat, pfn: nat, data: Page)
    requires Base(n, ps) <= |m| && pfn < n && |data| == ps && Copied(m, m', Base(pfn, ps), data)
    ensures Frames(m', ps, n) == Frames(m, ps, n)[pfn := data]
  {
    hide Frames, Base, Copied;
    assert |m'| == |m| by { CopiedSize(m, m', Base(pfn, ps), data); }
    forall f | 0 <= f < n
      ensures Frames(m', ps, n)[f] == if f == pfn then data else Frames(m, ps, n)[f]
    {
      FrameFits(f, n, ps);
      if f < pfn {
        FrameFits(f, pfn, ps);
      } else if f > pfn {
        FrameFits(pfn, f, ps);
      }
      CopiedSlice(m, m', Base(pfn, ps), data, Base(f, ps));
    }
  }

  lemma CopiedSize(m: seq<Byte>, m': seq<Byte>, a: nat, data: Page)
    requires Copied(m, m', a, data)
    ensures |m'| == |m|
  {
  }

  /** Overwriting one byte changes that byte of that frame only. */
  lemma FramesAfterPoke(m: seq<Byte>, m': seq<Byte>, ps: nat, n: nat, pfn: nat, off: nat, val: Byte)
    requires Base(n, ps) <= |m| == |m'| && pfn < n && off < ps
    requires forall i :: 0 <= i < |m| ==> m'[i] == if i == Base(pfn, ps) + off then val else m[i]
    ensures Frames(m', ps, n) == Frames(m, ps, n)[pfn := Poke(Frames(m, ps, n)[pfn], off, val)]
  {
    hide Frames, Base, Poke, FrameAt;
    FrameFits(pfn, n, ps);
    PokeIsCopy(m, m', Base(pfn, ps), ps, off, val);
    FrameIsSlice(m, ps, pfn);
    FramesAfterCopy(m, m', ps, n, pfn, Poke(FrameAt(m, ps, pfn), off, val));
  }

  lemma FrameIsSlice(m: seq<Byte>, ps: nat, f: nat)
    requires Base(f, ps) + ps <= |m|
    ensures FrameAt(m, ps, f) == m[Base(f, ps)..Base(f, ps) + ps]
  {
  }

  lemma PokeIsCopy(m: seq<Byte>, m': seq<Byte>, a: nat, ps: nat, off: nat, val: Byte)
    requires a + ps <= |m| == |m'| && off < ps
    requires forall i :: 0 <= i < |m| ==> m'[i] == if i == a + off then val else m[i]
    ensures |Poke(m[a..a + ps], off, val)| == ps && Copied(m, m', a, Poke(m[a..a + ps], off, val))
  {
    PokeAt(m[a..a + ps], off, val);
    hide Poke;
  }

  lemma PokeAt(p: Page, off: nat, val: Byte)
    requires off < |p|
    ensures |Poke(p, off, val)| == |p|
    ensures forall i :: 0 <= i < |p| ==> Poke(p, off, val)[i] == if i == off then val else p[i]
  {
  }

  // ---------------------------------------------------------------- the machine

  /** The page names of these processes. */
  ghost function Pages(procs: set<nat>, numPte: nat): (r: set<Owner>)
    ensures forall o: Owner :: o in r <==> o.pid in procs && o.vpn < numPte
  {
    set p, v | p in procs && 0 <= v < numPte :: Owner(p, v)
  }

  class Machine {
    const pageSize: nat
    const memSize: nat
    const maxJobs: nat
    const memory: array<Byte>
    const tlb: array<Tlbe>
    const rlt: array<Option<Owner>>
    const swapfile: SwapList
    var tables: map<nat, array<Pte>>
    var current: Option<nat>
    var countPagefaults: nat
    var countTlbhits: nat
    var countReads: nat
    var countWrites: nat
    var countDiskaccesses: nat

    function Cfg(): Config {
      Config(pageSize, rlt.Length, tlb.Length, maxJobs)
    }

    ghost function Tables(): set<array<Pte>>
      reads this`tables
    {
      set p | p in tables :: tables[p]
    }

    /** One page table per forked process, shared with nothing. */
    ghost predicate TablesValid()
      reads this`tables
    {
      && Cfg().Valid()
      && (forall p :: p in tables ==> p < maxJobs && tables[p].Length == Cfg().NumPte())
      && (forall p, q :: p in tables && q in tables && tables[p] == tables[q] ==> p == q)
      && {memory as object, tlb, rlt} !! Tables()
    }

    ghost predicate Valid(): (valid: bool)
      reads this`tables, this`current, swapfile, swapfile.repr
      ensures valid ==> Cfg().Valid() && TablesValid() && swapfile.Valid()
    {
      && TablesValid()
      && swapfile.Valid()
      && Base(rlt.Length, pageSize) <= memory.Length
      && (current.Some? ==> current.value in tables)
      && (forall i :: 0 <= i < |swapfile.saved| ==> |swapfile.saved[i].data| == pageSize)
    }

    /** The entries of all page tables. */
    ghost function Entries(): map<Owner, Pte>
      requires TablesValid()
      reads this`tables, Tables()
    {
      map o: Owner | o in Pages(tables.Keys, Cfg().NumPte()) :: tables[o.pid][o.vpn]
    }

    ghost function View(): Vm
      requires Valid()
      reads this, memory, tlb, rlt, swapfile, swapfile.repr, Tables()
    {
      Vm(Cfg(), Frames(memory[..], pageSize, rlt.Length), tlb[..], rlt[..], tables.Keys, Entries(), swapfile.saved,
         current, Counts(countPagefaults, countTlbhits, countReads, countWrites, countDiskaccesses))
    }

    // -------------------------------------------------------------- swapfile.c

    /** The bytes of a frame. */
    method ReadFrame(pfn: nat) returns (data: Page)
      requires Valid() && pfn < rlt.Length
      ensures |data| == pageSize && data == Frames(memory[..], pageSize, rlt.Length)[pfn]
    {
      hide Frames, TablesValid, SwapList.Valid;
      FrameFits(pfn, rlt.Length, pageSize);
      BaseIsProduct(pfn, pageSize);
      data := memory[..][pfn * pageSize..pfn * pageSize + pageSize];
    }

    /** Saves a frame at the head of the swap list. */
    method PageToDisk(pfn: nat, o: Owner)
      requires Valid() && pfn < rlt.Length
      modifies swapfile, swapfile.repr, this`countDiskaccesses
      ensures fresh(swapfile.repr - old(swapfile.repr))
      ensures Valid() && View() == VmState.PageToDisk(old(View()), pfn, o)
    {
      hide Entries, Frames, Base, SwapList.Valid;
      countDiskaccesses := countDiskaccesses + 1;
      var data := ReadFrame(pfn);
      swapfile.Push(o, data);
    }

    /** Copies a page into a frame. */
    method CopyIn(pfn: nat, data: Page)
      requires Valid() && pfn < rlt.Length && |data| == pageSize
      modifies memory
      ensures Valid() && View() == old(View()).(frames := old(View()).frames[pfn := data])
    {
      hide Entries, Frames;
      var base := pfn * pageSize;
      FrameFits(pfn, rlt.Length, pageSize);
      BaseIsProduct(pfn, pageSize);
      ghost var was := memory[..];
      var j := 0;
      while j < pageSize
        invariant 0 <= j <= pageSize
        invariant forall i :: 0 <= i < memory.Length ==>
          memory[i] == if base <= i < base + j then data[i - base] else was[i]
      {
        memory[base + j] := data[j];
        j := j + 1;
      }
      FramesAfterCopy(was, memory[..], pageSize, rlt.Length, pfn, data);
    }

    /** Restores a page: its first saved copy, which is unlinked, or zeros. */
    method PageFromDisk(pfn: nat, o: Owner)
      requires Valid() && pfn < rlt.Length
      modifies memory, swapfile, swapfile.repr, this`countDiskaccesses
      ensures fresh(swapfile.repr - old(swapfile.repr))
      ensures Valid() && View() == VmState.PageFromDisk(old(View()), pfn, o)
    {
      hide Frames, Base, FindSwap, Entries, SwapList.Valid;
      var data := swapfile.Take(o);
      if data == None {
        CopyIn(pfn, Cfg().ZeroPage());
      } else {
        CopyIn(pfn, data.value);
        countDiskaccesses := countDiskaccesses + 1;
      }
    }

    // -------------------------------------------------------------- page tables

    method GetEntry(o: Owner) returns (e: Pte)
      requires Valid() && o in View().pt
      ensures e == View().pt[o]
    {
      e := tables[o.pid][o.vpn];
    }

    /** Writes one page-table entry. */
    method SetEntry(o: Owner, e: Pte)
      requires Valid() && o in View().pt
      modifies Tables()
      ensures Valid() && tables == old(tables)
      ensures View() == old(View()).(pt := old(View()).pt[o := e])
    {
      ghost var before := Entries();
      tables[o.pid][o.vpn] := e;
      assert Entries() == before[o := e];
    }

    // -------------------------------------------------------------- page-replacement.c

    /** Finds a frame: the first free one, else the first the sweep finds unused, else frame 0. */
    method GetFreeFrame() returns (pfn: nat)
      requires Valid() && RltNames(View())
      modifies Tables()
      ensures Valid() && tables == old(tables)
      ensures (pfn, View()) == VmState.GetFreeFrame(old(View()))
    {
      hide Valid, TablesValid, SwapList.Valid, Entries, Frames;
      pfn := 0;
      while pfn < rlt.Length && rlt[pfn].Some?
        invariant 0 <= pfn <= rlt.Length
        invariant FirstFree(rlt[..], 0) == FirstFree(rlt[..], pfn)
      {
        pfn := pfn + 1;
      }
      if pfn == rlt.Length {
        pfn := SweepFrames();
      }
    }

    method SweepFrames() returns (pfn: nat)
      requires Valid() && RltNames(View()) && forall f :: 0 <= f < rlt.Length ==> rlt[f].Some?
      modifies Tables()
      ensures Valid() && tables == old(tables)
      ensures (pfn, View()) == Sweep(old(View()), 0)
    {
      hide Valid, TablesValid, SwapList.Valid, Entries, Frames;
      pfn := 0;
      while pfn < rlt.Length
        invariant 0 <= pfn <= rlt.Length
        invariant Valid() && tables == old(tables) && RltNames(View())
        invariant Sweep(View(), pfn) == Sweep(old(View()), 0)
      {
        var o := rlt[pfn].value;
        var e := GetEntry(o);
        if e.used {
          SetEntry(o, e.(used := false));
        } else {
          return;
        }
        pfn := pfn + 1;
      }
      pfn := 0;
    }

    // -------------------------------------------------------------- tlb.c

    method TlbClearAll()
      requires Valid()
      modifies tlb
      ensures Valid() && View() == old(View()).(tlb := VmState.TlbClearAll(old(View()).tlb))
    {
      hide Entries, Frames;
      var i := 0;
      while i < tlb.Length
        invariant 0 <= i <= tlb.Length
        invariant forall j :: 0 <= j < i ==> tlb[j] == old(tlb[j]).(valid := false, dirty := false, used := false)
        invariant forall j :: i <= j < tlb.Length ==> tlb[j] == old(tlb[j])
      {
        tlb[i] := tlb[i].(valid := false, dirty := false, used := false);
        i := i + 1;
      }
    }

    method TlbClearOne(vpn: nat)
      requires Valid()
      modifies tlb
      ensures Valid() && View() == old(View()).(tlb := VmState.TlbClearOne(old(View()).tlb, vpn))
    {
      hide Entries, Frames;
      var i := 0;
      while i < tlb.Length
        invariant 0 <= i <= tlb.Length
        invariant forall j :: 0 <= j < i ==> tlb[j] == VmState.TlbClearOne(old(tlb[..]), vpn)[j]
        invariant forall j :: i <= j < tlb.Length ==> tlb[j] == old(tlb[j])
      {
        if tlb[i].vpn == vpn {
          tlb[i] := tlb[i].(valid := false, dirty := false, used := false);
        }
        i := i + 1;
      }
    }

    // -------------------------------------------------------------- page-fault.c

    /** Takes a frame from its owner: saves a dirty page, drops its mapping and its TLB entries. */
    method Evict(pfn: nat)
      requires Valid() && RltNames(View()) && pfn < rlt.Length
      modifies swapfile, swapfile.repr, this`countDiskaccesses, tlb, Tables()
      ensures fresh(swapfile.repr - old(swapfile.repr))
      ensures Valid() && tables == old(tables) && View() == VmState.Evict(old(View()), pfn)
    {
      hide Valid, TablesValid, SwapList.Valid, Entries, Frames;
      hide VmState.TlbClearOne, VmState.PageToDisk, VmState.Evict;
      EvictSteps(View(), pfn);
      if rlt[pfn].Some? {
        var o := rlt[pfn].value;
        var e := GetEntry(o);
        if e.valid {
          if e.dirty {
            PageToDisk(pfn, o);
          }
          DropPage(o, e);
        }
      }
    }

    /** Invalidates a page's entry and its TLB entries. */
    method DropPage(o: Owner, e: Pte)
      requires Valid() && o in View().pt
      modifies tlb, Tables()
      ensures Valid() && tables == old(tables)
      ensures var s := old(View());
        View() == s.(pt := s.pt[o := e.(valid := false)]).(tlb := VmState.TlbClearOne(s.tlb, o.vpn))
    {
      hide Valid, TablesValid, SwapList.Valid, Entries, Frames, VmState.TlbClearOne;
      SetEntry(o, e.(valid := false));
      TlbClearOne(o.vpn);
    }

    method SetOwner(pfn: nat, o: Owner)
      requires Valid() && pfn < rlt.Length
      modifies rlt
      ensures Valid() && View() == old(View()).(rlt := old(View()).rlt[pfn := Some(o)])
    {
      hide Entries, Frames, SwapList.Valid;
      rlt[pfn] := Some(o);
    }

    /** The page fault handler. */
    method PagefaultHandler(vpn: nat, write: bool) returns (pfn: nat)
      requires Valid() && CanAccess(View(), vpn)
      modifies swapfile, swapfile.repr, this`countDiskaccesses, memory, tlb, rlt, Tables()
      ensures fresh(swapfile.repr - old(swapfile.repr))
      ensures Valid() && tables == old(tables) && (pfn, View()) == Fault(old(View()), vpn, write)
    {
      hide Valid, TablesValid, SwapList.Valid, Entries, Frames, VmState.GetFreeFrame, VmState.Install, VmState.Evict;
      pfn := GetFreeFrame();
      EvictKeepsKeys(View(), pfn);
      Evict(pfn);
      Install(pfn, Owner(current.value, vpn), write);
    }

    /** Gives a frame to a page and restores the page into it. */
    method Install(pfn: nat, o: Owner, write: bool)
      requires Valid() && pfn < rlt.Length && o in View().pt
      modifies swapfile, swapfile.repr, this`countDiskaccesses, memory, rlt, Tables()
      ensures fresh(swapfile.repr - old(swapfile.repr))
      ensures Valid() && tables == old(tables) && View() == VmState.Install(old(View()), pfn, o, write)
    {
      hide Valid, TablesValid, SwapList.Valid, Entries, Frames, VmState.PageFromDisk;
      SetOwner(pfn, o);
      SetEntry(o, Pte(pfn, true, write, true));
      PageFromDisk(pfn, o);
    }

    // -------------------------------------------------------------- page-lookup.c and tlb-lookup.c

    method PagetableLookup(vpn: nat, write: bool) returns (pfn: nat)
      requires Valid() && CanAccess(View(), vpn)
      modifies this`countPagefaults, swapfile, swapfile.repr, this`countDiskaccesses, memory, tlb, rlt, Tables()
      ensures fresh(swapfile.repr - old(swapfile.repr))
      ensures Valid() && tables == old(tables) && (pfn, View()) == VmState.PagetableLookup(old(View()), vpn, write)
    {
      hide Valid, TablesValid, SwapList.Valid, Entries, Frames, Fault;
      var e := GetEntry(Owner(current.value, vpn));
      if !e.valid {
        countPagefaults := countPagefaults + 1;
        pfn := PagefaultHandler(vpn, write);
      } else {
        pfn := e.pfn;
      }
    }

    /** Places an entry in a TLB that does not hold its page: an invalid slot, else the sweep's. */
    method TlbFill(e: Tlbe)
      requires Valid()
      modifies tlb
      ensures Valid() && View() == old(View()).(tlb := VmState.TlbFill(old(View()).tlb, e))
    {
      hide Entries, Frames;
      var i := 0;
      while i < tlb.Length && tlb[i].valid
        invariant 0 <= i <= tlb.Length
        invariant TlbInvalid(tlb[..], 0) == TlbInvalid(tlb[..], i)
      {
        i := i + 1;
      }
      if i < tlb.Length {
        tlb[i] := e;
        return;
      }
      i := 0;
      while i < tlb.Length
        invariant 0 <= i <= tlb.Length
        invariant TlbSweep(tlb[..], e, i) == TlbSweep(old(tlb[..]), e, 0)
      {
        if !tlb[i].used {
          ghost var was := tlb[..];
          tlb[i] := e;
          assert tlb[..] == was[i := e];
          return;
        }
        ghost var was := tlb[..];
        tlb[i] := tlb[i].(used := false);
        assert tlb[..] == was[i := was[i].(used := false)];
        i := i + 1;
      }
    }

    method TlbLookup(vpn: nat, write: bool) returns (pfn: nat)
      requires Valid() && CanAccess(View(), vpn)
      modifies this`countTlbhits, this`countPagefaults, this`countDiskaccesses
      modifies swapfile, swapfile.repr, memory, tlb, rlt, Tables()
      ensures fresh(swapfile.repr - old(swapfile.repr))
      ensures Valid() && tables == old(tables) && (pfn, View()) == VmState.TlbLookup(old(View()), vpn, write)
    {
      hide Valid, TablesValid, SwapList.Valid, Entries, Frames, VmState.PagetableLookup, VmState.TlbFill;
      var i := 0;
      while i < tlb.Length && !(tlb[i].valid && tlb[i].vpn == vpn)
        invariant 0 <= i <= tlb.Length
        invariant TlbFind(tlb[..], vpn, 0) == TlbFind(tlb[..], vpn, i)
      {
        i := i + 1;
      }
      if i < tlb.Length {
        countTlbhits := countTlbhits + 1;
        pfn := tlb[i].pfn;
      } else {
        pfn := PagetableLookup(vpn, write);
        TlbFill(Tlbe(vpn, pfn, true, write, true));
      }
    }

    // -------------------------------------------------------------- memory.c

    /** Loads a byte through the TLB and the current page table. */
    method MemLoad(va: Addr) returns (data: Byte)
      requires Valid() && Inv(View()) && current.Some?
      modifies this`countReads, this`countTlbhits, this`countPagefaults, this`countDiskaccesses
      modifies swapfile, swapfile.repr, memory, tlb, rlt, Tables()
      ensures fresh(swapfile.repr - old(swapfile.repr))
      ensures Valid() && tables == old(tables) && (data, View()) == VmRuns.MemLoad(old(View()), va)
    {
      hide Valid, TablesValid, SwapList.Valid, Entries, Frames, Base;
      hide VmState.TlbLookup, Core, OccupiedUpTo, Resident, VictimFrame;
      RunningCanAccess(View(), current.value, va);
      TlbLookupEffect(View(), Vpn(Cfg(), va), false);
      AddressSplits(Cfg(), va);
      var pfn := TlbLookup(Vpn(Cfg(), va), false);
      BaseIsProduct(pfn, pageSize);
      FrameInMemory(pfn);
      data := memory[pfn * pageSize + va % pageSize];
      countReads := countReads + 1;
    }

    /** Stores a byte through the TLB and the current page table. */
    method MemStore(va: Addr, data: Byte)
      requires Valid() && Inv(View()) && current.Some?
      modifies this`countWrites, this`countTlbhits, this`countPagefaults, this`countDiskaccesses
      modifies swapfile, swapfile.repr, memory, tlb, rlt, Tables()
      ensures fresh(swapfile.repr - old(swapfile.repr))
      ensures Valid() && tables == old(tables) && View() == VmRuns.MemStore(old(View()), va, data)
    {
      hide Valid, TablesValid, SwapList.Valid, Entries, Frames, Base;
      hide VmState.TlbLookup, Core, OccupiedUpTo, Resident, VictimFrame;
      RunningCanAccess(View(), current.value, va);
      TlbLookupEffect(View(), Vpn(Cfg(), va), true);
      AddressSplits(Cfg(), va);
      var pfn := TlbLookup(Vpn(Cfg(), va), true);
      BaseIsProduct(pfn, pageSize);
      FrameInMemory(pfn);
      countWrites := countWrites + 1;
      ghost var was := memory[..];
      memory[pfn * pageSize + va % pageSize] := data;
      FramesAfterPoke(was, memory[..], pageSize, rlt.Length, pfn, Offset(Cfg(), va), data);
    }

    /** The frame an access was translated to lies inside memory. */
    lemma FrameInMemory(pfn: nat)
      requires Valid() && Core(View()) && exists o: Owner :: Resident(View(), o) && View().pt[o].pfn == pfn
      ensures pfn < rlt.Length && Base(pfn, pageSize) + pageSize <= Base(rlt.Length, pageSize) <= memory.Length
    {
      FrameFits(pfn, rlt.Length, pageSize);
    }

    // -------------------------------------------------------------- process.c

    /** Allocates the page table of a process. */
    method NewTable(pid: nat)
      requires TablesValid() && pid < maxJobs
      modifies this`tables
      ensures TablesValid() && pid in tables && fresh(tables[pid]) && tables == old(tables)[pid := tables[pid]]
      ensures tables[pid].Length == Cfg().NumPte()
      ensures forall v :: 0 <= v < tables[pid].Length ==> tables[pid][v] == Pte(0, false, false, false)
    {
      var newtbl := new Pte[Cfg().NumPte()](_ => Pte(0, false, false, false));
      tables := tables[pid := newtbl];
      assert Tables() <= old(Tables()) + {newtbl};
    }

    twostate lemma EntriesAfterFork(pid: nat, new newtbl: array<Pte>)
      requires old(TablesValid()) && TablesValid() && tables == old(tables)[pid := newtbl]
      requires Cfg().Valid() && newtbl.Length == Cfg().NumPte()
      requires forall v :: 0 <= v < newtbl.Length ==> newtbl[v] == Pte(0, false, false, false)
      requires forall p :: p in old(tables) ==> unchanged(old(tables)[p])
      ensures Entries() == old(Entries()) + BlankTable(Cfg(), pid)
    {
      hide Pages, BlankTable, Tables, TablesValid;
      var before, after, blank := old(Entries()), Entries(), BlankTable(Cfg(), pid);
      assert after.Keys == before.Keys + blank.Keys;
      assert forall o :: o in blank ==> after[o] == blank[o];
      assert forall o :: o in before && o !in blank ==> after[o] == before[o];
    }

    /** Creates a process with an all-invalid page table. */
    method ProcFork(pid: nat)
      requires Valid() && pid < maxJobs
      modifies this`tables
      ensures Valid() && pid in tables && fresh(tables[pid]) && tables == old(tables)[pid := tables[pid]]
      ensures View() == VmState.Fork(old(View()), pid)
    {
      hide Frames, Pages, BlankTable, Entries;
      NewTable(pid);
      EntriesAfterFork(pid, tables[pid]);
    }

    /** Makes a forked process the current one and clears the TLB. */
    method ProcSwitch(pid: nat)
      requires Valid() && pid in tables
      modifies this`current, tlb
      ensures Valid() && View() == Switch(old(View()), pid)
    {
      hide Entries, Frames;
      current := Some(pid);
      TlbClearAll();
    }

    // -------------------------------------------------------------- sim.c

    /** Carries out one line of a references file; the value loaded is the result of a load. */
    method Execute(op: Op) returns (loaded: Option<Byte>)
      requires Valid() && Inv(View()) && Legal(Cfg(), tables.Keys, op)
      modifies this, memory, tlb, rlt, swapfile, swapfile.repr, Tables()
      ensures fresh(swapfile.repr - old(swapfile.repr))
      ensures Valid() && View() == Exec(old(View()), op)
      ensures loaded == if op.Load? && op.pid < maxJobs && op.pid in old(tables)
                        then Some(LoadValue(old(View()), op.pid, op.va))
                        else None
    {
      hide Valid, TablesValid, SwapList.Valid, Entries, Frames;
      hide Core, OccupiedUpTo, VmRuns.MemLoad, VmRuns.MemStore, VmState.Fork, Switch;
      loaded := None;
      if op.pid < maxJobs {
        if op.Fork? {
          ProcFork(op.pid);
        } else {
          SelectEffect(View(), op.pid);
          if current != Some(op.pid) {
            ProcSwitch(op.pid);
          }
          match op {
            case Load(_, va) =>
              var data := MemLoad(va);
              loaded := Some(data);
            case Store(_, va, val) =>
              MemStore(va, val);
          }
        }
      }
    }

    /** `mem_init`, `proc_init` and `tlb_init`: everything is zeroed. */
    constructor (pageSize: nat, memSize: nat, tlbSize: nat, maxJobs: nat)
      requires pageSize > 0 && Config(pageSize, memSize / pageSize, tlbSize, maxJobs).Valid()
      ensures Valid() && View() == Init(Config(pageSize, memSize / pageSize, tlbSize, maxJobs))
    {
      hide Frames, Base, Entries;
      this.pageSize, this.memSize, this.maxJobs := pageSize, memSize, maxJobs;
      memory := new Byte[memSize](_ => 0);
      tlb := new Tlbe[tlbSize](_ => Tlbe(0, 0, false, false, false));
      rlt := new Option<Owner>[memSize / pageSize](_ => None);
      swapfile := new SwapList();
      tables, current := map[], None;
      countPagefaults, countTlbhits, countReads, countWrites, countDiskaccesses := 0, 0, 0, 0, 0;
      new;
      BaseIsProduct(rlt.Length, pageSize);
      NoEntries();
      ZeroFrames(memory[..], Cfg());
    }

    lemma NoEntries()
      requires TablesValid() && tables == map[]
      ensures Entries() == map[]
    {
    }
  }

  /** The steps of an eviction. */
  lemma EvictSteps(s: Vm, pfn: nat)
    requires pfn < |s.rlt| == |s.frames| && RltNames(s)
    ensures match s.rlt[pfn]
            case None => VmState.Evict(s, pfn) == s
            case Some(o) =>
              var t := if s.pt[o].dirty then VmState.PageToDisk(s, pfn, o) else s;
              && t.pt == s.pt && t.tlb == s.tlb
              && VmState.Evict(s, pfn) ==
                   if s.pt[o].valid
                   then t.(pt := t.pt[o := s.pt[o].(valid := false)]).(tlb := VmState.TlbClearOne(t.tlb, o.vpn))
                   else s
  {
  }

  lemma EvictKeepsKeys(s: Vm, pfn: nat)
    requires pfn < |s.rlt| == |s.frames| && RltNames(s)
    ensures VmState.Evict(s, pfn).pt.Keys == s.pt.Keys && VmState.Evict(s, pfn).current == s.current
  {
  }

  lemma ZeroFrames(m: seq<Byte>, c: Config)
    requires Base(c.numFrames, c.pageSize) <= |m| && forall i :: 0 <= i < |m| ==> m[i] == 0
    ensures Frames(m, c.pageSize, c.numFrames) == seq(c.numFrames, _ => c.ZeroPage())
  {
    hide Frames, Base;
    forall f | 0 <= f < c.numFrames
      ensures Base(f, c.pageSize) + c.pageSize <= |m| && FrameAt(m, c.pageSize, f) == c.ZeroPage()
    {
      FrameFits(f, c.numFrames, c.pageSize);
    }
  }
}
