/** Round robin: how long a process keeps a CPU, and how long a ready process waits for one. */
module SchedRoundRobin {
  import opened Arith
  import opened Wrappers
  import opened SchedState
  import opened SchedSim
  import opened SchedSimInvariant

  ghost predicate RoundRobin(c: Config) {
    ConfigOk(c) && !c.byPriority && c.timeslice >= 1
  }

  lemma TimerInSlice(c: Config, s: Sim, k: nat)
    requires RoundRobin(c) && Inv(c, s) && Busy(s.sched, k)
    ensures 1 <= s.sched.cpus[k].timer <= c.timeslice
  {
  }

  lemma HeadIsNew(c: Config, s: Sim, n: nat)
    requires Inv(c, s) && Busy(s.sched, n) && s.sched.queue != []
    ensures s.sched.queue[0] != Current(s.sched, n)
  {
    assert s.sched.queue[0] in s.sched.queue;
  }

  // ---------------------------------------------------------------- holding a CPU

  /** The turns that CPU `k` has begun. */
  function Turns(s: Sim, k: nat): nat {
    s.time + if s.at > k then 1 else 0
  }

  lemma StepTurns(c: Config, s: Sim, k: nat)
    requires k < |s.sched.cpus| && s.at <= |s.sched.cpus| + 1
    ensures Turns(Advance(c, s), k) == Turns(s, k) + if s.at == k then 1 else 0
  {
    hide Preempt, Yield, Terminate, WakeUp;
  }

  /** When a process's slice ends within a burst the CPU gets a full slice again, and the process keeps the CPU
      exactly when no other is ready: `preempt` puts it back and `schedule` takes it out again. */
  lemma SliceEnds(c: Config, s: Sim)
    requires RoundRobin(c) && Inv(c, s) && Enabled(c, s, Next)
    requires s.at < c.cpus && Busy(s.sched, s.at) && s.sched.cpus[s.at].timer == 1
    requires var ops := Left(s, Current(s.sched, s.at)); ops != [] && ops[0] > 0
    ensures var s' := Advance(c, s);
      && Busy(s'.sched, s.at) && s'.sched.cpus[s.at].timer == c.timeslice
      && (Current(s'.sched, s.at) == Current(s.sched, s.at) <==> s.sched.queue == [])
  {
    RunningHasBurst(c, s, s.at);
    if s.sched.queue != [] {
      HeadIsNew(c, s, s.at);
    }
  }

  /** Process `p` is on CPU `k` in every state of the run. */
  ghost predicate Keeps(c: Config, s: Sim, events: seq<Event>, p: Pid, k: nat)
    requires Runs(c, s, events)
  {
    var s' := After(c, s, events);
    && Busy(s'.sched, k) && Current(s'.sched, k) == p
    && (events != [] ==> Keeps(c, s, events[..|events| - 1], p, k))
  }

  /** The step is CPU `k`'s turn, its timer about to run out, with nothing else ready. */
  predicate Renewal(s: Sim, e: Event, k: nat) {
    e == Next && s.at == k && k < |s.sched.cpus| && s.sched.cpus[k].timer == 1 && s.sched.queue == []
  }

  ghost function Renewals(c: Config, s: Sim, events: seq<Event>, k: nat): nat
    requires Runs(c, s, events)
  {
    if events == [] then 0
    else
      var before := events[..|events| - 1];
      Renewals(c, s, before, k) + if Renewal(After(c, s, before), events[|events| - 1], k) then 1 else 0
  }

  /** A turn that leaves CPU `k` its process is a tick of its burst. */
  lemma KeptTurn(c: Config, s: Sim, k: nat)
    requires RoundRobin(c) && Inv(c, s) && Enabled(c, s, Next) && s.at == k < c.cpus && Busy(s.sched, k)
    requires var s' := Advance(c, s); Busy(s'.sched, k) && Current(s'.sched, k) == Current(s.sched, k)
    ensures var t := s.sched.cpus[k].timer;
      && Advance(c, s).sched.cpus[k].timer == (if t == 1 then c.timeslice else t - 1)
      && (t == 1 ==> s.sched.queue == [])
  {
    RunningHasBurst(c, s, k);
    if s.sched.queue != [] {
      HeadIsNew(c, s, k);
    }
  }

  /** Other steps do not touch a busy CPU. */
  lemma OtherStep(c: Config, s: Sim, e: Event, k: nat)
    requires RoundRobin(c) && Inv(c, s) && Enabled(c, s, e) && Busy(s.sched, k) && !(e == Next && s.at == k)
    ensures Busy(Apply(c, s, e).sched, k) && Apply(c, s, e).sched.cpus[k] == s.sched.cpus[k]
  {
    hide Inv, Settled, Pick, SetLeft, Left;
  }

  /** One step of a run in which the process stays on CPU `k`. */
  lemma KeptStep(c: Config, s: Sim, e: Event, k: nat)
    requires RoundRobin(c) && Inv(c, s) && Enabled(c, s, e) && Busy(s.sched, k)
    requires var s' := Apply(c, s, e); Busy(s'.sched, k) && Current(s'.sched, k) == Current(s.sched, k)
    ensures var s' := Apply(c, s, e);
      s'.sched.cpus[k].timer + Turns(s', k)
        == s.sched.cpus[k].timer + Turns(s, k) + if Renewal(s, e, k) then c.timeslice else 0
  {
    hide SimulateCpu, SimulateIo, SimulateCreat, Advance, Settled, SchedOk, InProgram;
    Lengths(c, s);
    AtBounded(c, s);
    StepTurns(c, s, k);
    if e == Next && s.at == k {
      KeptTurn(c, s, k);
    } else {
      OtherStep(c, s, e, k);
    }
  }

  /** How long a process keeps a CPU: what its timer showed and shows, and a slice for every time it ran out
      with nothing else ready. It stays within its slice if and only if that never happens. */
  lemma {:induction false} BoundedHold(c: Config, s: Sim, events: seq<Event>, p: Pid, k: nat)
    requires RoundRobin(c) && Inv(c, s) && Runs(c, s, events) && Keeps(c, s, events, p, k)
    ensures Inv(c, After(c, s, events)) && Busy(s.sched, k)
    ensures var s' := After(c, s, events);
      var held := Turns(s', k) - Turns(s, k);
      && held == s.sched.cpus[k].timer - s'.sched.cpus[k].timer + Renewals(c, s, events, k) * c.timeslice
      && (held < s.sched.cpus[k].timer <==> Renewals(c, s, events, k) == 0)
      && (Renewals(c, s, events, k) == 0 ==> held < c.timeslice)
  {
    Held(c, s, events, p, k);
    TimerInSlice(c, s, k);
    TimerInSlice(c, After(c, s, events), k);
    Renewed(Renewals(c, s, events, k), c.timeslice);
  }

  lemma {:induction false} Held(c: Config, s: Sim, events: seq<Event>, p: Pid, k: nat)
    requires RoundRobin(c) && Inv(c, s) && Runs(c, s, events) && Keeps(c, s, events, p, k)
    ensures Inv(c, After(c, s, events)) && Busy(s.sched, k) && Current(s.sched, k) == p
    ensures var s' := After(c, s, events);
      s'.sched.cpus[k].timer + Turns(s', k)
        == s.sched.cpus[k].timer + Turns(s, k) + Renewals(c, s, events, k) * c.timeslice
  {
    hide Inv, Apply, Enabled, Turns, Renewal, ConfigOk;
    if events != [] {
      var before, e := events[..|events| - 1], events[|events| - 1];
      var t := After(c, s, before);
      Held(c, s, before, p, k);
      KeptStep(c, t, e, k);
      StepKeepsInv(c, t, e);
      OneMore(Renewals(c, s, before, k), c.timeslice);
    }
  }

  lemma OneMore(n: nat, q: int)
    ensures (n + 1) * q == n * q + q
  {
  }

  lemma Renewed(n: nat, q: int)
    requires q >= 1
    ensures if n == 0 then n * q == 0 else n * q >= q
  {
    if n > 0 {
      OneMore(n - 1, q);
      NonNegative(n - 1, q);
    }
  }

  lemma NonNegative(n: nat, q: int)
    requires q >= 1
    ensures n * q >= 0
  {
  }

  // ---------------------------------------------------------------- a lone process outlasts its slice

  /** One CPU, slices of one tick, one process with a burst of three. */
  const LONE: Config := Config(1, 1, false, [1])

  function LoneState(sched: Sched, burst: nat, time: nat, at: nat): Sim {
    Sim(sched, [[burst]], [], 1, 0, time, at)
  }

  function LoneRunning(): Sched {
    Sched([], [Running], [Cpu(Some(0), 1)])
  }

  /** The states before its dispatch. */
  lemma LoneCreated()
    ensures var s := Start(LONE, [[3]]);
      && Enabled(LONE, s, Next) && Apply(LONE, s, Next) == s.(at := 1)
      && Enabled(LONE, s.(at := 1), Next) && Apply(LONE, s.(at := 1), Next) == s.(at := 2)
      && Enabled(LONE, s.(at := 2), Next)
      && var t := Apply(LONE, s.(at := 2), Next);
        && t == LoneState(Sched([0], [Ready], [Cpu(None, -1)]), 3, 1, 0)
        && Enabled(LONE, t, Dispatch(0)) && Apply(LONE, t, Dispatch(0)) == LoneState(LoneRunning(), 3, 1, 0)
  {
  }

  lemma LoneTurn(burst: nat, time: nat)
    requires burst > 0
    ensures var s := LoneState(LoneRunning(), burst, time, 0);
      && Enabled(LONE, s, Next) && Apply(LONE, s, Next) == LoneState(LoneRunning(), burst - 1, time, 1)
      && Renewal(s, Next, 0)
  {
    var ops := [burst - 1] + [burst][1..];
    assert ops == [burst - 1];
    assert SetLeft([[burst]], 0, ops) == [[burst - 1]];
    assert Without([0], 0) == [];
    assert Enqueue(Ticked(LoneRunning(), 0), 0).queue == [0];
  }

  lemma LoneRest(burst: nat, time: nat)
    ensures var s, t := LoneState(LoneRunning(), burst, time, 1), LoneState(LoneRunning(), burst, time, 2);
      && Enabled(LONE, s, Next) && Apply(LONE, s, Next) == t && !Renewal(s, Next, 0)
      && Enabled(LONE, t, Next) && Apply(LONE, t, Next) == LoneState(LoneRunning(), burst, time + 1, 0)
      && !Renewal(t, Next, 0)
  {
  }

  lemma RunsSnoc(c: Config, s: Sim, before: seq<Event>, e: Event)
    requires Runs(c, s, before) && Enabled(c, After(c, s, before), e)
    ensures Runs(c, s, before + [e]) && After(c, s, before + [e]) == Apply(c, After(c, s, before), e)
  {
    assert (before + [e])[..|before|] == before;
  }

  lemma KeepsNothing(c: Config, s: Sim, p: Pid, k: nat)
    requires Busy(s.sched, k) && Current(s.sched, k) == p
    ensures Runs(c, s, []) && After(c, s, []) == s && Keeps(c, s, [], p, k) && Renewals(c, s, [], k) == 0
  {
  }

  lemma KeepsSnoc(c: Config, s: Sim, before: seq<Event>, e: Event, p: Pid, k: nat)
    requires Runs(c, s, before) && Enabled(c, After(c, s, before), e) && Keeps(c, s, before, p, k)
    requires var s' := Apply(c, After(c, s, before), e); Busy(s'.sched, k) && Current(s'.sched, k) == p
    ensures Runs(c, s, before + [e]) && After(c, s, before + [e]) == Apply(c, After(c, s, before), e)
    ensures Keeps(c, s, before + [e], p, k)
    ensures Renewals(c, s, before + [e], k)
      == Renewals(c, s, before, k) + if Renewal(After(c, s, before), e, k) then 1 else 0
  {
    RunsSnoc(c, s, before, e);
    assert (before + [e])[..|before|] == before;
  }

  lemma LoneDispatched()
    ensures var events := [Next, Next, Next, Dispatch(0)];
      && Runs(LONE, Start(LONE, [[3]]), events)
      && After(LONE, Start(LONE, [[3]]), events) == LoneState(LoneRunning(), 3, 1, 0)
  {
    var s := Start(LONE, [[3]]);
    LoneCreated();
    hide Enabled, Apply;
    assert After(LONE, s, []) == s;
    RunsSnoc(LONE, s, [], Next);
    RunsSnoc(LONE, s, [] + [Next], Next);
    RunsSnoc(LONE, s, [] + [Next] + [Next], Next);
    RunsSnoc(LONE, s, [] + [Next] + [Next] + [Next], Dispatch(0));
    assert [] + [Next] + [Next] + [Next] + [Dispatch(0)] == [Next, Next, Next, Dispatch(0)];
  }

  /** The run up to its dispatch, and one more tick and turn, in both of which it runs out of its slice. */
  lemma LoneProcessOutlastsItsSlice()
    ensures var dispatched, later := [Next, Next, Next, Dispatch(0)], [Next, Next, Next, Next];
      && ConfigOk(LONE) && ProgramsOk(LONE, [[3]]) && Runs(LONE, Start(LONE, [[3]]), dispatched)
      && var s := After(LONE, Start(LONE, [[3]]), dispatched);
        && Runs(LONE, s, later) && Keeps(LONE, s, later, 0, 0)
        && Turns(After(LONE, s, later), 0) - Turns(s, 0) == 2 > LONE.timeslice
        && Renewals(LONE, s, later, 0) == 2
  {
    hide Enabled, Apply, Renewal, Runs, After, Keeps, Renewals, Start;
    LoneDispatched();
    var s := LoneState(LoneRunning(), 3, 1, 0);
    LoneTurn(3, 1);
    LoneRest(2, 1);
    LoneTurn(2, 2);
    KeepsNothing(LONE, s, 0, 0);
    KeepsSnoc(LONE, s, [], Next, 0, 0);
    KeepsSnoc(LONE, s, [] + [Next], Next, 0, 0);
    KeepsSnoc(LONE, s, [] + [Next] + [Next], Next, 0, 0);
    KeepsSnoc(LONE, s, [] + [Next] + [Next] + [Next], Next, 0, 0);
    assert [] + [Next] + [Next] + [Next] + [Next] == [Next, Next, Next, Next];
  }

  // ---------------------------------------------------------------- waiting in the queue

  /** With a process ready, a step is a part of a tick. Only the CPU whose turn it is changes: it keeps its
      process, its timer one lower, or takes the head of the queue with a full slice. The queue loses only that
      head, and grows at its tail. */
  ghost predicate WaitStep(c: Config, s: Sim, s': Sim) {
    var q, q', n := s.sched.queue, s'.sched.queue, s.at;
    && |s'.sched.cpus| == |s.sched.cpus| && Settled(s'.sched) && q != []
    && (forall k :: 0 <= k < |s.sched.cpus| && k != n ==> s'.sched.cpus[k] == s.sched.cpus[k])
    && if n >= |s.sched.cpus| then q <= q'
       else
         && Busy(s.sched, n) && Busy(s'.sched, n)
         && if Current(s'.sched, n) == Current(s.sched, n) then
              q <= q' && s'.sched.cpus[n].timer == s.sched.cpus[n].timer - 1
            else
              q[1..] <= q' && Current(s'.sched, n) == q[0] && s'.sched.cpus[n].timer == c.timeslice
  }

  lemma CpuTurnWaits(c: Config, s: Sim)
    requires RoundRobin(c) && Inv(c, s) && Enabled(c, s, Next) && s.sched.queue != [] && s.at < c.cpus
    ensures WaitStep(c, s, Advance(c, s))
  {
    Lengths(c, s);
    var n := s.at;
    assert Busy(s.sched, n);
    HeadIsNew(c, s, n);
    RunningHasBurst(c, s, n);
    hide Inv;
    var p := Current(s.sched, n);
    assert (s.sched.queue + [p])[1..] == s.sched.queue[1..] + [p];
    assert Without(s.sched.queue, 0) == s.sched.queue[1..];
    assert Without(s.sched.queue + [p], 0) == s.sched.queue[1..] + [p];
  }

  lemma OtherTurnWaits(c: Config, s: Sim)
    requires RoundRobin(c) && Inv(c, s) && Enabled(c, s, Next) && s.sched.queue != [] && s.at >= c.cpus
    ensures WaitStep(c, s, Advance(c, s))
  {
    Lengths(c, s);
    hide Inv;
  }

  lemma WaitingStep(c: Config, s: Sim, e: Event)
    requires RoundRobin(c) && Inv(c, s) && Settled(s.sched) && s.sched.queue != [] && Enabled(c, s, e)
    ensures e == Next && WaitStep(c, s, Advance(c, s))
  {
    hide Inv, WaitStep, Advance;
    Lengths(c, s);
    assert forall n :: 0 <= n < |s.sched.cpus| ==> Busy(s.sched, n);
    if s.at < c.cpus {
      CpuTurnWaits(c, s);
    } else {
      OtherTurnWaits(c, s);
    }
  }

  ghost predicate WaitsThroughout(c: Config, s: Sim, events: seq<Event>, x: Pid)
    requires Runs(c, s, events)
  {
    x in After(c, s, events).sched.queue && (events != [] ==> WaitsThroughout(c, s, events[..|events| - 1], x))
  }

  /** The slices still to run out, over all CPUs. */
  function TimerSum(cpus: seq<Cpu>): int {
    if cpus == [] then 0 else TimerSum(cpus[..|cpus| - 1]) + cpus[|cpus| - 1].timer
  }

  /** The turns that all `m` CPUs together have begun. */
  function AllTurns(s: Sim, m: nat): nat {
    m * s.time + if s.at < m then s.at else m
  }

  lemma {:induction false} TimerSumSet(cpus: seq<Cpu>, n: nat, cpu: Cpu)
    requires n < |cpus|
    ensures TimerSum(cpus[n := cpu]) == TimerSum(cpus) - cpus[n].timer + cpu.timer
  {
    var last := |cpus| - 1;
    if n < last {
      TimerSumSet(cpus[..last], n, cpu);
      assert cpus[n := cpu][..last] == cpus[..last][n := cpu];
    } else {
      assert cpus[n := cpu][..last] == cpus[..last];
    }
  }

  lemma {:induction false} TimerSumBounds(cpus: seq<Cpu>, q: nat)
    requires forall k :: 0 <= k < |cpus| ==> 1 <= cpus[k].timer <= q
    ensures |cpus| <= TimerSum(cpus) <= |cpus| * q
  {
    if cpus != [] {
      TimerSumBounds(cpus[..|cpus| - 1], q);
      OneMore(|cpus| - 1, q);
    }
  }

  /** The potential of process number `i` in the queue: it falls by one with every turn of every CPU. */
  function Potential(c: Config, s: Sim, i: nat): int {
    i * c.timeslice + TimerSum(s.sched.cpus) + AllTurns(s, c.cpus)
  }

  lemma StepAllTurns(c: Config, s: Sim)
    requires s.at <= |s.sched.cpus| + 1
    ensures AllTurns(Advance(c, s), |s.sched.cpus|)
      == AllTurns(s, |s.sched.cpus|) + if s.at < |s.sched.cpus| then 1 else 0
  {
    hide Preempt, Yield, Terminate, WakeUp;
    var m := |s.sched.cpus|;
    assert m * (s.time + 1) == m * s.time + m;
  }

  /** A process that stays in the queue moves up whenever a CPU switches. */
  lemma StaysQueued(c: Config, s: Sim, s': Sim, i: nat) returns (j: nat)
    requires Inv(c, s') && WaitStep(c, s, s') && i < |s.sched.queue| && s.sched.queue[i] in s'.sched.queue
    ensures j < |s'.sched.queue| && s'.sched.queue[j] == s.sched.queue[i]
    ensures var n := s.at;
      if n < |s.sched.cpus| && Current(s'.sched, n) != Current(s.sched, n) then j + 1 == i else j == i
  {
    var n := s.at;
    if n < |s.sched.cpus| && Current(s'.sched, n) != Current(s.sched, n) {
      var x := s.sched.queue[i];
      assert s'.sched.state[x] == Ready;
      assert s.sched.queue[0] != x;
      j := i - 1;
      assert s.sched.queue[1..][j] == x;
    } else {
      j := i;
    }
  }

  lemma PotentialFalls(c: Config, s: Sim, i: nat) returns (j: nat)
    requires RoundRobin(c) && Inv(c, s) && Inv(c, Advance(c, s)) && WaitStep(c, s, Advance(c, s))
    requires i < |s.sched.queue| && s.sched.queue[i] in Advance(c, s).sched.queue
    ensures var s' := Advance(c, s);
      j < |s'.sched.queue| && s'.sched.queue[j] == s.sched.queue[i] && Potential(c, s', j) <= Potential(c, s, i)
  {
    hide Inv, Advance, Settled, TimerSum, AllTurns;
    var s' := Advance(c, s);
    var n, cpus, cpus' := s.at, s.sched.cpus, s'.sched.cpus;
    j := StaysQueued(c, s, s', i);
    Lengths(c, s);
    AtBounded(c, s);
    StepAllTurns(c, s);
    if n < |cpus| {
      TimerInSlice(c, s, n);
      assert cpus' == cpus[n := cpus'[n]];
      TimerSumSet(cpus, n, cpus'[n]);
      OneMore(j, c.timeslice);
    } else {
      assert cpus' == cpus;
    }
  }

  lemma {:induction false} Waiting(c: Config, s: Sim, events: seq<Event>, x: Pid, i: nat) returns (j: nat)
    requires RoundRobin(c) && Inv(c, s) && Settled(s.sched) && i < |s.sched.queue| && s.sched.queue[i] == x
    requires Runs(c, s, events) && WaitsThroughout(c, s, events, x)
    ensures var s' := After(c, s, events);
      && Inv(c, s') && Settled(s'.sched) && j < |s'.sched.queue| && s'.sched.queue[j] == x
      && Potential(c, s', j) <= Potential(c, s, i)
  {
    hide Inv, Enabled, Advance, Settled, Potential, ConfigOk;
    if events == [] {
      j := i;
    } else {
      var before, e := events[..|events| - 1], events[|events| - 1];
      var t := After(c, s, before);
      var i' := Waiting(c, s, before, x, i);
      WaitingStep(c, t, e);
      StepKeepsInv(c, t, e);
      j := PotentialFalls(c, t, i');
      StillSettled(c, t);
    }
  }

  lemma StillSettled(c: Config, s: Sim)
    requires WaitStep(c, s, Advance(c, s))
    ensures Settled(Advance(c, s).sched)
  {
  }

  /** A process woken beside an idle CPU is dispatched at once. */
  lemma UnsettledDispatches(c: Config, s: Sim, e: Event)
    requires Inv(c, s) && !Settled(s.sched) && Enabled(c, s, e)
    ensures e.Dispatch? && |s.sched.queue| == 1 && Apply(c, s, e).sched.queue == []
    ensures OnSomeCpu(Apply(c, s, e).sched, s.sched.queue[0])
  {
    hide Consistent, Ordered, TimersOk, InProgram, Highest;
    var s' := Apply(c, s, e);
    assert Busy(s'.sched, e.cpu) && Current(s'.sched, e.cpu) == s.sched.queue[0];
  }

  lemma {:induction false} UnsettledDoesNotWait(c: Config, s: Sim, events: seq<Event>, x: Pid)
    requires Inv(c, s) && !Settled(s.sched) && Runs(c, s, events) && WaitsThroughout(c, s, events, x)
    ensures events == []
  {
    hide Inv, Settled, Enabled, Apply;
    if events != [] {
      UnsettledDoesNotWait(c, s, events[..|events| - 1], x);
      UnsettledDispatches(c, s, events[0]);
    }
  }

  /** Whatever arrives later and however often others are preempted: on `m` CPUs a process with `i` ahead of
      it waits at most `(i + m) * slice / m` ticks. */
  lemma {:induction false} BoundedWait(c: Config, s: Sim, events: seq<Event>, x: Pid, i: nat)
    requires RoundRobin(c) && Inv(c, s) && i < |s.sched.queue| && s.sched.queue[i] == x
    requires Runs(c, s, events) && WaitsThroughout(c, s, events, x)
    ensures c.cpus * (After(c, s, events).time - s.time) <= (i + c.cpus) * c.timeslice
    ensures After(c, s, events).time - s.time <= (i + 1) * c.timeslice
  {
    hide *;
    var s' := After(c, s, events);
    if Settled(s.sched) {
      var j := Waiting(c, s, events, x, i);
      PotentialBounds(c, s, i);
      PotentialBounds(c, s', j);
      WaitArithmetic(c, s, s', i, j);
    } else {
      UnsettledDoesNotWait(c, s, events, x);
      NoTimePasses(c, s, i);
    }
  }

  lemma NoTimePasses(c: Config, s: Sim, i: nat)
    requires RoundRobin(c)
    ensures Runs(c, s, []) && After(c, s, []) == s
    ensures c.cpus * (s.time - s.time) <= (i + c.cpus) * c.timeslice && 0 <= (i + 1) * c.timeslice
  {
    NonNegative(i + c.cpus, c.timeslice);
    NonNegative(i + 1, c.timeslice);
  }

  lemma PotentialBounds(c: Config, s: Sim, i: nat)
    requires RoundRobin(c) && Inv(c, s) && Settled(s.sched) && i < |s.sched.queue|
    ensures c.cpus <= TimerSum(s.sched.cpus) <= c.cpus * c.timeslice && c.cpus > 0 && c.timeslice >= 1
  {
    Lengths(c, s);
    forall k | 0 <= k < c.cpus ensures 1 <= s.sched.cpus[k].timer <= c.timeslice {
      assert Busy(s.sched, k);
    }
    hide Inv, Settled;
    TimerSumBounds(s.sched.cpus, c.timeslice);
  }

  lemma WaitArithmetic(c: Config, s: Sim, s': Sim, i: nat, j: nat)
    requires Potential(c, s', j) <= Potential(c, s, i) && c.cpus > 0 && c.timeslice >= 1
    requires TimerSum(s.sched.cpus) <= c.cpus * c.timeslice && c.cpus <= TimerSum(s'.sched.cpus)
    ensures c.cpus * (s'.time - s.time) <= (i + c.cpus) * c.timeslice
    ensures s'.time - s.time <= (i + 1) * c.timeslice
  {
    hide TimerSum;
    var m, q := c.cpus, c.timeslice;
    NonNegative(j, q);
    assert m * s'.time - m * s.time == m * (s'.time - s.time);
    assert (i + m) * q == i * q + m * q;
    FewerWaits(m, s'.time - s.time, i, q);
  }

  lemma FewerWaits(m: nat, t: int, i: nat, q: nat)
    requires m > 0 && m * t <= (i + m) * q
    ensures t <= (i + 1) * q
  {
    MulMono(i + m, m * (i + 1), q);
    MulAssoc(m, i + 1, q);
    Cancel(m, t, (i + 1) * q);
  }

  lemma Cancel(m: nat, t: int, z: int)
    requires m > 0 && m * t <= m * z
    ensures t <= z
  {
    assert m * t - m * z == m * (t - z);
    AtLeastOne(m, t - z);
  }

  lemma AtLeastOne(m: nat, d: int)
    requires m > 0
    ensures d >= 1 ==> m * d >= 1
  {
  }

  /** It leaves the queue for a CPU. */
  lemma {:induction false} LeavesForCpu(c: Config, s: Sim, e: Event, x: Pid)
    requires RoundRobin(c) && Inv(c, s) && x in s.sched.queue
    requires Enabled(c, s, e) && x !in Apply(c, s, e).sched.queue
    ensures OnSomeCpu(Apply(c, s, e).sched, x)
  {
    hide Inv, Settled, Advance, Idle;
    assert s.sched.queue == [s.sched.queue[0]] + s.sched.queue[1..];
    if Settled(s.sched) {
      WaitingStep(c, s, e);
    } else {
      UnsettledDispatches(c, s, e);
    }
  }
}
