/**
  Frame replacement is a binary counter: with all frames in use, the used bits read as a number count
  the evictions, and the victim is the position of the lowest one in the new count.
*/
module VmReplacement {
  import opened Arith
  import opened VmState
  import opened VmInvariant
  import opened VmFault
  import opened VmAccess
  import opened VmRuns
  import opened VmTransparency

  // ---------------------------------------------------------------- bits as numbers

  /** Bits as a number, frame 0 lowest. */
  function Value(b: seq<bool>): nat {
    if b == [] then 0 else (if b[0] then 1 else 0) + 2 * Value(b[1..])
  }

  function TrailingZeros(x: nat): nat
    requires x > 0
  {
    if x % 2 == 1 then 0 else 1 + TrailingZeros(x / 2)
  }

  /** The frame the sweep picks for these used bits. */
  function Victim(b: seq<bool>): (v: nat)
    requires b != []
    ensures v < |b|
  {
    var z := FirstZero(b, 0);
    if z == |b| then 0 else z
  }

  /** The used bits after an eviction. */
  function Evicted(b: seq<bool>): (r: seq<bool>)
    requires b != []
    ensures |r| == |b|
  {
    ClearFrom(b, 0)[Victim(b) := true]
  }

  lemma {:induction false} ShiftSweep(b: seq<bool>, i: nat)
    requires b != [] && i <= |b| - 1
    ensures FirstZero(b, i + 1) == 1 + FirstZero(b[1..], i)
    ensures ClearFrom(b, i + 1) == [b[0]] + ClearFrom(b[1..], i)
    decreases |b| - i
  {
    if i + 1 < |b| && b[i + 1] {
      ShiftSweep(b[i + 1 := false], i + 1);
      ShiftSweep(b, i + 1);
      assert b[i + 1 := false][1..] == b[1..][i := false];
    } else {
      assert b == [b[0]] + b[1..];
    }
  }

  /** The all-ones value is the largest, and only all ones reach it. */
  lemma {:induction false} ValueBound(b: seq<bool>)
    ensures Value(b) < Pow2(|b|)
    ensures Value(b) == Pow2(|b|) - 1 <==> FirstZero(b, 0) == |b|
  {
    if b != [] {
      ValueBound(b[1..]);
      ShiftSweep(b, 0);
    }
  }

  lemma {:induction false} ClearAll(b: seq<bool>)
    requires FirstZero(b, 0) == |b|
    ensures Value(ClearFrom(b, 0)) == 0
  {
    if b != [] {
      ShiftSweep(b, 0);
      ShiftSweep(b[0 := false], 0);
      assert b[0 := false][1..] == b[1..];
      ClearAll(b[1..]);
    }
  }

  /** The sweep clears a used frame 0 and goes on with the others. */
  lemma SweepRest(b: seq<bool>)
    requires b != [] && b[0]
    ensures FirstZero(b, 0) == 1 + FirstZero(b[1..], 0)
    ensures ClearFrom(b, 0) == [false] + ClearFrom(b[1..], 0)
  {
    var c := b[0 := false];
    assert c[1..] == b[1..];
    ShiftSweep(b, 0);
    ShiftSweep(c, 0);
  }

  /** Behind a used frame an eviction is that of the other frames; an unused frame 0 is taken at once. */
  lemma EvictedRest(b: seq<bool>)
    requires FirstZero(b, 0) < |b|
    ensures b[0] ==> FirstZero(b[1..], 0) < |b[1..]| && Victim(b) == 1 + Victim(b[1..])
    ensures b[0] ==> Evicted(b) == [false] + Evicted(b[1..])
    ensures !b[0] ==> Victim(b) == 0 && Evicted(b) == [true] + b[1..]
  {
    if b[0] {
      hide FirstZero, ClearFrom;
      SweepRest(b);
    }
  }

  lemma ValueOf(bit: bool, rest: seq<bool>)
    ensures Value([bit] + rest) == (if bit then 1 else 0) + 2 * Value(rest)
  {
    assert ([bit] + rest)[1..] == rest;
  }

  /** Below all ones, an eviction adds one, and its victim is the trailing zeros of the new value. */
  lemma {:induction false} EvictionAddsOne(b: seq<bool>)
    requires FirstZero(b, 0) < |b|
    ensures Value(Evicted(b)) == Value(b) + 1
    ensures TrailingZeros(Value(b) + 1) == Victim(b)
  {
    hide Evicted, Victim, FirstZero, Value;
    EvictedRest(b);
    assert b == [b[0]] + b[1..];
    ValueOf(b[0], b[1..]);
    if b[0] {
      EvictionAddsOne(b[1..]);
      ValueOf(false, Evicted(b[1..]));
    } else {
      ValueOf(true, b[1..]);
    }
  }

  /** At all ones the count starts again at one, in frame 0. */
  lemma EvictionWraps(b: seq<bool>)
    requires b != [] && FirstZero(b, 0) == |b|
    ensures Value(Evicted(b)) == 1 && Victim(b) == 0
  {
    ClearAll(b);
    var r := ClearFrom(b, 0);
    assert Value(r) == 0 ==> !r[0];
    assert Evicted(b)[1..] == r[1..];
  }

  // ---------------------------------------------------------------- the count of evictions

  /** The used bits as a number after `k` evictions with `n` frames. */
  function CountAfter(k: nat, n: nat): nat
    requires n >= 1
  {
    if k == 0 then Pow2(n) - 1 else (k - 1) % (Pow2(n) - 1) + 1
  }

  lemma ModNext(a: nat, m: nat)
    requires m > 0
    ensures (a + 1) % m == if a % m == m - 1 then 0 else a % m + 1
  {
    if a % m == m - 1 {
      assert a + 1 == (a / m + 1) * m + 0;
      DivMod(a / m + 1, 0, m);
    } else {
      assert a + 1 == (a / m) * m + (a % m + 1);
      DivMod(a / m, a % m + 1, m);
    }
  }

  lemma CountNext(k: nat, n: nat)
    requires n >= 1
    ensures CountAfter(k + 1, n) == if CountAfter(k, n) == Pow2(n) - 1 then 1 else CountAfter(k, n) + 1
  {
    var m := Pow2(n) - 1;
    if k > 0 {
      ModNext(k - 1, m);
    } else {
      DivMod(0, 0, m);
    }
  }

  /** From the `k`-th value of the counter, the next eviction takes it to the next value and picks that
      value's trailing zeros. */
  lemma EvictionCounts(b: seq<bool>, k: nat)
    requires b != [] && Value(b) == CountAfter(k, |b|)
    ensures Value(Evicted(b)) == CountAfter(k + 1, |b|)
    ensures CountAfter(k + 1, |b|) > 0 && Victim(b) == TrailingZeros(CountAfter(k + 1, |b|))
  {
    ValueBound(b);
    CountNext(k, |b|);
    if FirstZero(b, 0) < |b| {
      EvictionAddsOne(b);
    } else {
      EvictionWraps(b);
    }
  }

  // ---------------------------------------------------------------- runs

  lemma ForkUsedBits(s: Vm, pid: nat)
    requires Inv(s) && pid !in s.procs && pid < s.cfg.maxJobs
    ensures Inv(VmState.Fork(s, pid)) && UsedBits(VmState.Fork(s, pid)) == UsedBits(s)
  {
    hide VictimFrame;
    ForkEffect(s, pid);
    assert forall f :: 0 <= f < |s.rlt| && s.rlt[f].Some? ==> s.rlt[f].value.pid in s.procs;
  }

  /** The bytes moved and the accesses counted are no used bits. */
  lemma AccessUsedBits(s: Vm, op: Op)
    requires Inv(s) && s.current.Some? && !op.Fork?
    ensures CanAccess(s, Vpn(s.cfg, op.va))
    ensures var t := if op.Load? then MemLoad(s, op.va).1 else MemStore(s, op.va, op.val);
            var u := TlbLookup(s, Vpn(s.cfg, op.va), op.Store?).1;
            RltNames(t) && RltNames(u) && UsedBits(t) == UsedBits(u) && t.counts.faults == u.counts.faults
  {
    hide TlbLookup, UsedBits, VictimFrame;
    RunningCanAccess(s, s.current.value, op.va);
    TlbLookupEffect(s, Vpn(s.cfg, op.va), op.Store?);
    AddressSplits(s.cfg, op.va);
    var t := if op.Load? then MemLoad(s, op.va).1 else MemStore(s, op.va, op.val);
    SameTablesSameBits(TlbLookup(s, Vpn(s.cfg, op.va), op.Store?).1, t);
  }

  lemma ExecUsedBits(s: Vm, op: Op)
    requires Inv(s) && Legal(s.cfg, s.procs, op)
    ensures var t := Exec(s, op);
            && Inv(t) && t.cfg == s.cfg
            && t.counts.faults == s.counts.faults + (if Faults(s, op) then 1 else 0)
            && UsedBits(t) ==
                 if !Faults(s, op) then UsedBits(s)
                 else if s.counts.faults < |s.rlt| then UsedBits(s)[VictimFrame(s) := true]
                 else ClearFrom(UsedBits(s), 0)[VictimFrame(s) := true]
  {
    hide TlbLookup, VictimFrame, UsedBits, ClearFrom, RltExact, SwapOnce, TlbCoherent, OccupiedUpTo;
    hide VmState.Fork, MemLoad, MemStore;
    ExecKeepsInv(s, op);
    if op.pid < s.cfg.maxJobs {
      if op.Fork? {
        ForkEffect(s, op.pid);
        ForkUsedBits(s, op.pid);
      } else {
        SelectEffect(s, op.pid);
        VictimIgnoresSelect(s, op.pid);
        var u := Select(s, op.pid);
        SameTablesSameBits(s, u);
        AccessUsedBits(u, op);
        RunningCanAccess(u, op.pid, op.va);
        TlbLookupUsedBits(u, Vpn(s.cfg, op.va), op.Store?);
        TlbLookupEffect(u, Vpn(s.cfg, op.va), op.Store?);
      }
    }
  }

  /** The frame a fault takes, from the used bits. */
  lemma VictimFromBits(s: Vm)
    requires Inv(s)
    ensures VictimFrame(s) == if s.counts.faults < |s.rlt| then s.counts.faults else Victim(UsedBits(s))
  {
    FreeFrameEffect(s, s.counts.faults);
  }

  /** Until all frames are in use their used bits are all set; from then on the used bits, read as a
      number, count the evictions. */
  ghost predicate Clock(s: Vm) {
    && Inv(s)
    && (s.counts.faults <= |s.rlt| ==> forall f :: 0 <= f < |s.rlt| ==> (UsedBits(s)[f] <==> f < s.counts.faults))
    && (s.counts.faults >= |s.rlt| ==> Value(UsedBits(s)) == CountAfter(s.counts.faults - |s.rlt|, |s.rlt|))
  }

  lemma ClockStep(s: Vm, op: Op)
    requires Clock(s) && Legal(s.cfg, s.procs, op)
    ensures Clock(Exec(s, op))
    ensures Faults(s, op) && s.counts.faults >= |s.rlt| ==>
      var k := s.counts.faults - |s.rlt|;
      CountAfter(k + 1, |s.rlt|) > 0 && VictimFrame(s) == TrailingZeros(CountAfter(k + 1, |s.rlt|))
  {
    hide Exec, VictimFrame, Core, OccupiedUpTo, UsedBits;
    ExecUsedBits(s, op);
    VictimFromBits(s);
    SizeOfRlt(s);
    SizeOfRlt(Exec(s, op));
    var b, c := UsedBits(s), UsedBits(Exec(s, op));
    if Faults(s, op) {
      if s.counts.faults >= |b| {
        EvictionCounts(b, s.counts.faults - |b|);
      } else if s.counts.faults + 1 == |b| {
        assert FirstZero(c, 0) == |c|;
        ValueBound(c);
      }
    }
  }

  lemma SizeOfRlt(s: Vm)
    requires Inv(s)
    ensures |s.rlt| == s.cfg.numFrames >= 1 && RltNames(s) && s.cfg.Valid()
  {
  }

  /** In every reachable state the used bits count the evictions, for every number of frames and
      whatever the accesses. */
  lemma {:induction false} ReplacementCounts(c: Config, ops: seq<Op>)
    requires c.Valid() && LegalRun(c, ops)
    ensures Clock(Run(c, ops))
  {
    hide Exec, Inv;
    if ops == [] {
      InitInv(c);
      ClockStarts(c);
    } else {
      ReplacementCounts(c, ops[..|ops| - 1]);
      ClockStep(Run(c, ops[..|ops| - 1]), ops[|ops| - 1]);
    }
  }

  lemma ClockStarts(c: Config)
    requires c.Valid()
    ensures Clock(Init(c))
  {
    InitInv(c);
  }

  /** The `k`-th eviction of a run takes the frame numbered by the trailing zeros of
      ((k - 1) mod (2^N - 1)) + 1. */
  lemma EvictionVictim(c: Config, ops: seq<Op>, op: Op)
    requires c.Valid() && LegalRun(c, ops) && Legal(c, Forked(c, ops), op)
    requires var s := Run(c, ops); Faults(s, op) && s.counts.faults >= c.numFrames
    ensures var s := Run(c, ops);
            var k := s.counts.faults - c.numFrames + 1;
            VictimFrame(s) == TrailingZeros((k - 1) % (Pow2(c.numFrames) - 1) + 1)
  {
    hide Run, Forked, LegalRun, Legal, Faults, VictimFrame, Inv, Clock, Exec, TrailingZeros, Pow2;
    ReplacementCounts(c, ops);
    SizeOfRlt(Run(c, ops));
    ClockStep(Run(c, ops), op);
  }
}
