/** What every step of the simulation keeps: one place per process, idle CPUs, timers and priorities. */
module SchedSimInvariant {
  import opened Wrappers
  import opened SchedState
  import opened SchedInvariant
  import opened SchedSim

  ghost predicate ProgramsOk(c: Config, programs: seq<Program>) {
    |programs| == |c.priority| && forall p :: 0 <= p < |programs| ==> |programs[p]| % 2 == 1
  }

  ghost predicate InIo(io: seq<Request>, p: Pid) {
    exists i :: 0 <= i < |io| && io[i].pid == p
  }

  /** Where each process is in its program, and what the I/O queue and the process counter say. */
  ghost predicate InProgram(state: seq<ProcState>, rest: seq<Program>, io: seq<Request>, created: nat) {
    && |state| == |rest| && created <= |state|
    && (forall i, j :: 0 <= i < j < |io| ==> io[i].pid != io[j].pid)
    && (forall p: Pid :: InIo(io, p) <==> p < |state| && state[p] == Waiting)
    && (forall p :: 0 <= p < |state| ==> (state[p] == New <==> p >= created))
    && (forall p :: 0 <= p < |state| ==> (state[p] == Terminated <==> rest[p] == []))
    && (forall p :: 0 <= p < |state| && rest[p] != [] ==> (state[p] == Waiting <==> |rest[p]| % 2 == 0))
  }

  function CountEmpty(rest: seq<Program>): nat {
    if rest == [] then 0 else CountEmpty(rest[..|rest| - 1]) + if rest[|rest| - 1] == [] then 1 else 0
  }

  ghost predicate TimersOk(c: Config, s: Sched) {
    c.timeslice > 0 ==> forall n :: Busy(s, n) ==> 1 <= s.cpus[n].timer <= c.timeslice
  }

  ghost predicate SchedOk(c: Config, s: Sched) {
    && Consistent(c, s)
    && (Settled(s) || |s.queue| == 1)
    && (c.byPriority && Settled(s) ==> Ordered(c, s))
    && TimersOk(c, s)
  }

  ghost predicate Inv(c: Config, s: Sim) {
    && SchedOk(c, s.sched)
    && InProgram(s.sched.state, s.rest, s.io, s.created)
    && s.terminated == CountEmpty(s.rest)
    && s.at <= c.cpus + 1
  }

  // ---------------------------------------------------------------- handlers and process states

  /** The states differ only in which of the ready and running processes run. */
  ghost predicate Interchange(a: seq<ProcState>, b: seq<ProcState>) {
    |a| == |b| && forall p :: 0 <= p < |a| ==>
      a[p] == b[p] || (a[p] == Ready && b[p] == Running) || (a[p] == Running && b[p] == Ready)
  }

  lemma ScheduleInterchanges(c: Config, s: Sched, n: nat)
    requires n < |s.cpus| && forall p: Pid :: p in s.queue ==> p < |s.state| && s.state[p] == Ready
    ensures Interchange(s.state, Schedule(c, s, n).state)
  {
  }

  lemma InterchangeInProgram(a: seq<ProcState>, b: seq<ProcState>, rest: seq<Program>, io: seq<Request>, created: nat)
    requires Interchange(a, b) && InProgram(a, rest, io, created)
    ensures InProgram(b, rest, io, created)
  {
  }

  // ---------------------------------------------------------------- each handler keeps SchedOk

  lemma PreemptOk(c: Config, s: Sched, n: nat)
    requires SchedOk(c, s) && Settled(s) && Busy(s, n)
    ensures SchedOk(c, Preempt(c, s, n)) && Interchange(s.state, Preempt(c, s, n).state)
  {
    hide Consistent, Ordered, Settled, Pick, Highest;
    PreemptConsistent(c, s, n);
    if c.byPriority {
      PreemptOrdered(c, s, n);
    }
    PreemptSettles(c, s, n);
    PreemptInterchanges(c, s, n);
    PreemptTimers(c, s, n);
  }

  lemma PreemptTimers(c: Config, s: Sched, n: nat)
    requires TimersOk(c, s) && Busy(s, n)
    ensures TimersOk(c, Preempt(c, s, n))
  {
    hide Pick, Highest;
    ScheduleTimers(c, Enqueue(s, Current(s, n)), n);
  }

  lemma ScheduleTimers(c: Config, s: Sched, n: nat)
    requires n < |s.cpus|
    requires c.timeslice > 0 ==> forall m :: Busy(s, m) && m != n ==> 1 <= s.cpus[m].timer <= c.timeslice
    ensures TimersOk(c, Schedule(c, s, n))
  {
    hide Pick, Highest;
    var s' := Schedule(c, s, n);
    assert forall m :: Busy(s', m) && m != n ==> Busy(s, m);
  }

  lemma PreemptSettles(c: Config, s: Sched, n: nat)
    requires Settled(s) && Busy(s, n)
    ensures Settled(Preempt(c, s, n))
  {
    var s1 := Enqueue(s, Current(s, n));
    assert s.queue != [] ==> forall m :: 0 <= m < |s.cpus| ==> Busy(s1, m);
    ScheduleSettles(c, s1, n);
  }

  lemma PreemptInterchanges(c: Config, s: Sched, n: nat)
    requires Consistent(c, s) && Busy(s, n)
    ensures Interchange(s.state, Preempt(c, s, n).state)
  {
    ScheduleInterchanges(c, Enqueue(s, Current(s, n)), n);
  }

  /** A process that leaves its CPU for good, or for I/O. */
  lemma LeaveOk(c: Config, s: Sched, n: nat, v: ProcState)
    requires SchedOk(c, s) && Settled(s) && Busy(s, n) && (v == Waiting || v == Terminated)
    ensures var s' := if v == Waiting then Yield(c, s, n) else Terminate(c, s, n);
      SchedOk(c, s') && Interchange(SetState(s.state, Current(s, n), v), s'.state)
  {
    hide Pick, Highest;
    var s1 := s.(state := SetState(s.state, Current(s, n), v));
    LeaveConsistent(c, s, n, v);
    assert s.queue != [] ==> forall m :: 0 <= m < |s.cpus| ==> Busy(s1, m);
    ScheduleSettles(c, s1, n);
    if c.byPriority {
      LeaveOrdered(c, s, s1, n);
    }
    LeaveTimers(c, s, s1, n);
    LeaveInterchanges(c, s, n, v);
  }

  lemma LeaveConsistent(c: Config, s: Sched, n: nat, v: ProcState)
    requires Consistent(c, s) && Busy(s, n) && (v == Waiting || v == Terminated)
    ensures Consistent(c, if v == Waiting then Yield(c, s, n) else Terminate(c, s, n))
  {
    hide Consistent;
    if v == Waiting {
      YieldConsistent(c, s, n);
    } else {
      TerminateConsistent(c, s, n);
    }
  }

  lemma LeaveOrdered(c: Config, s: Sched, s1: Sched, n: nat)
    requires c.byPriority && Ordered(c, s) && n < |s.cpus| && s1 == s.(state := s1.state)
    ensures Ordered(c, Schedule(c, s1, n))
  {
    assert forall m :: Busy(s1, m) ==> Busy(s, m) && Current(s1, m) == Current(s, m);
    ScheduleOrdered(c, s1, n);
  }

  lemma LeaveTimers(c: Config, s: Sched, s1: Sched, n: nat)
    requires TimersOk(c, s) && n < |s.cpus| && s1 == s.(state := s1.state)
    ensures TimersOk(c, Schedule(c, s1, n))
  {
    assert forall m :: Busy(s1, m) ==> Busy(s, m);
    ScheduleTimers(c, s1, n);
  }

  lemma LeaveInterchanges(c: Config, s: Sched, n: nat, v: ProcState)
    requires Consistent(c, s) && Busy(s, n) && (v == Waiting || v == Terminated)
    ensures var s' := if v == Waiting then Yield(c, s, n) else Terminate(c, s, n);
      Interchange(SetState(s.state, Current(s, n), v), s'.state)
  {
    ScheduleInterchanges(c, s.(state := SetState(s.state, Current(s, n), v)), n);
  }

  /** A process new or waiting so far was put in the empty queue, beside an idle CPU that will dispatch it. */
  ghost predicate JustWoken(a: Sched, b: Sched) {
    && a.queue == [] && |b.queue| == 1 && b.cpus == a.cpus
    && b.queue[0] < |a.state| && (a.state[b.queue[0]] == New || a.state[b.queue[0]] == Waiting)
    && exists n :: 0 <= n < |b.cpus| && b.cpus[n].current.None?
  }

  lemma WakeUpUnsettled(c: Config, s: Sched, p: Pid)
    requires Settled(s) && p < |s.state| && (s.state[p] == Waiting || s.state[p] == New)
    ensures Settled(WakeUp(c, s, p)) || JustWoken(s, WakeUp(c, s, p))
  {
    var woken := Enqueue(s, p);
    if WakeUp(c, s, p) != woken {
      ScanFinds(c, s.cpus, |s.cpus|);
      var n := ScanCpus(c, s.cpus, |s.cpus|).stop.value;
      assert forall m :: 0 <= m < |s.cpus| ==> Busy(woken, m);
      ScheduleSettles(c, Enqueue(woken, Current(woken, n)), n);
    }
  }

  lemma WakeUpOk(c: Config, s: Sched, p: Pid)
    requires ConfigOk(c) && SchedOk(c, s) && Settled(s)
    requires p < |s.state| && (s.state[p] == Waiting || s.state[p] == New)
    ensures SchedOk(c, WakeUp(c, s, p)) && Interchange(SetState(s.state, p, Ready), WakeUp(c, s, p).state)
  {
    WakeUpConsistent(c, s, p);
    WakeUpUnsettled(c, s, p);
    if c.byPriority {
      WakeUpOrdered(c, s, p);
    }
    hide Ordered, Settled, Pick, Highest, ScanCpus, Schedule;
    EnqueueConsistent(c, s, p);
    var woken := Enqueue(s, p);
    assert forall n :: Busy(woken, n) ==> Busy(s, n);
    if WakeUp(c, s, p) != woken {
      var n := ScanCpus(c, s.cpus, |s.cpus|).stop.value;
      PreemptInterchanges(c, woken, n);
      PreemptTimers(c, woken, n);
    }
  }

  lemma IdleOk(c: Config, s: Sched, n: nat)
    requires SchedOk(c, s) && n < |s.cpus| && !Busy(s, n) && s.queue != []
    ensures SchedOk(c, Idle(c, s, n)) && Settled(Idle(c, s, n)) && Interchange(s.state, Idle(c, s, n).state)
  {
    ScheduleConsistent(c, s, n);
    ScheduleTimers(c, s, n);
    ScheduleInterchanges(c, s, n);
    hide Pick, Highest, Consistent;
    assert |s.queue| == 1;
  }

  // ---------------------------------------------------------------- programs and the I/O queue

  lemma SetLeftIs(rest: seq<Program>, p: Pid, ops: Program)
    requires p < |rest|
    ensures SetLeft(rest, p, ops) == rest[p := ops]
  {
  }

  lemma {:induction false} CountSet(rest: seq<Program>, p: Pid, ops: Program)
    requires p < |rest|
    ensures CountEmpty(rest[p := ops])
      == CountEmpty(rest) - (if rest[p] == [] then 1 else 0) + (if ops == [] then 1 else 0)
  {
    var n := |rest| - 1;
    if p < n {
      CountSet(rest[..n], p, ops);
      assert rest[p := ops][..n] == rest[..n][p := ops];
    } else {
      assert rest[p := ops][..n] == rest[..n];
    }
  }

  lemma BurstInProgram(state: seq<ProcState>, rest: seq<Program>, io: seq<Request>, created: nat, p: Pid, ops: Program)
    requires InProgram(state, rest, io, created) && p < |state|
    requires rest[p] != [] && |ops| == |rest[p]|
    ensures InProgram(state, rest[p := ops], io, created)
  {
  }

  lemma ToIoInProgram(state: seq<ProcState>, rest: seq<Program>, io: seq<Request>, created: nat, p: Pid)
    requires InProgram(state, rest, io, created) && p < |state| && state[p] == Running
    requires |rest[p]| > 1 && |rest[p]| % 2 == 1
    ensures InProgram(state[p := Waiting], rest[p := rest[p][1..]], io + [Request(p, rest[p][1])], created)
  {
    var io' := io + [Request(p, rest[p][1])];
    assert io'[|io|].pid == p;
    forall q: Pid ensures InIo(io', q) <==> InIo(io, q) || q == p {
      if InIo(io, q) {
        var i :| 0 <= i < |io| && io[i].pid == q;
        assert io'[i].pid == q;
      }
    }
    assert !InIo(io, p);
  }

  lemma ToEndInProgram(state: seq<ProcState>, rest: seq<Program>, io: seq<Request>, created: nat, p: Pid)
    requires InProgram(state, rest, io, created) && p < |state| && state[p] == Running
    ensures InProgram(state[p := Terminated], rest[p := []], io, created)
  {
  }

  lemma IoTickInProgram(state: seq<ProcState>, rest: seq<Program>, io: seq<Request>, created: nat, t: nat)
    requires InProgram(state, rest, io, created) && io != []
    ensures InProgram(state, rest, [Request(io[0].pid, t)] + io[1..], created)
  {
    var io' := [Request(io[0].pid, t)] + io[1..];
    assert forall i :: 0 <= i < |io| ==> io'[i].pid == io[i].pid;
    assert forall q: Pid :: InIo(io', q) <==> InIo(io, q);
  }

  lemma IoDoneInProgram(state: seq<ProcState>, rest: seq<Program>, io: seq<Request>, created: nat)
    requires InProgram(state, rest, io, created) && io != []
    ensures var p := io[0].pid;
      && InIo(io, p) && p < |state| && state[p] == Waiting && rest[p] != []
      && InProgram(state[p := Ready], rest[p := rest[p][1..]], io[1..], created)
  {
    var p := io[0].pid;
    assert InIo(io, p);
    forall q: Pid ensures InIo(io[1..], q) <==> InIo(io, q) && q != p {
      if InIo(io, q) && q != p {
        var i :| 0 <= i < |io| && io[i].pid == q;
        assert io[1..][i - 1].pid == q;
      }
    }
  }

  lemma CreatInProgram(state: seq<ProcState>, rest: seq<Program>, io: seq<Request>, created: nat)
    requires InProgram(state, rest, io, created) && created < |state|
    ensures InProgram(state[created := Ready], rest, io, created + 1)
  {
    assert rest[created] != [] by {
      assert state[created] == New;
    }
  }

  // ---------------------------------------------------------------- steps

  lemma TickedPreempt(c: Config, s: Sched, n: nat)
    requires Busy(s, n)
    ensures Preempt(c, Ticked(s, n), n) == Preempt(c, s, n)
  {
    var p := Current(s, n);
    assert Freed(Enqueue(Ticked(s, n), p), n) == Freed(Enqueue(s, p), n);
    ScheduleOverwrites(c, Enqueue(Ticked(s, n), p), n);
    ScheduleOverwrites(c, Enqueue(s, p), n);
  }

  ghost predicate SameCurrents(s: Sched, s': Sched) {
    && s'.queue == s.queue && s'.state == s.state && |s'.cpus| == |s.cpus|
    && forall m :: 0 <= m < |s.cpus| ==> s'.cpus[m].current == s.cpus[m].current
  }

  lemma SameCurrentsConsistent(c: Config, s: Sched, s': Sched)
    requires SameCurrents(s, s') && Consistent(c, s)
    ensures Consistent(c, s')
  {
    assert forall m :: Busy(s', m) ==> Busy(s, m) && Current(s', m) == Current(s, m);
    forall p: Pid | p < |s.state| && s.state[p] == Running ensures OnSomeCpu(s', p) {
      var m :| Busy(s, m) && Current(s, m) == p;
      assert Busy(s', m);
    }
  }

  lemma SameCurrentsOrdered(c: Config, s: Sched, s': Sched)
    requires SameCurrents(s, s')
    ensures Settled(s) <==> Settled(s')
    ensures Ordered(c, s) ==> Ordered(c, s')
  {
    assert forall m :: Busy(s', m) ==> Busy(s, m) && Current(s', m) == Current(s, m);
  }

  lemma TickedOk(c: Config, s: Sched, n: nat)
    requires SchedOk(c, s) && Busy(s, n) && s.cpus[n].timer != 1
    ensures SchedOk(c, Ticked(s, n))
  {
    SameCurrentsConsistent(c, s, Ticked(s, n));
    SameCurrentsOrdered(c, s, Ticked(s, n));
    hide Consistent, Settled, Ordered;
    assert forall m :: Busy(Ticked(s, n), m) ==> Busy(s, m);
  }

  /** The process on a CPU has a CPU burst next. */
  lemma RunningHasBurst(c: Config, s: Sim, n: nat)
    requires Inv(c, s) && Busy(s.sched, n)
    ensures var p := Current(s.sched, n);
      p < |s.rest| && |s.rest| == |s.sched.state| && s.sched.state[p] == Running && |s.rest[p]| % 2 == 1
  {
  }

  lemma BurstEffect(c: Config, s: Sim, n: nat, p: Pid, ops: Program)
    requires Busy(s.sched, n) && p == Current(s.sched, n) && p < |s.rest| && s.rest[p] == ops && ops != [] && ops[0] > 0
    ensures var s' := Burst(c, s, n, ops);
      && s' == s.(rest := s.rest[p := [ops[0] - 1] + ops[1..]], sched := s'.sched)
      && s'.sched == if s.sched.cpus[n].timer == 1 then Preempt(c, s.sched, n) else Ticked(s.sched, n)
  {
    hide Preempt;
    SetLeftIs(s.rest, p, [ops[0] - 1] + ops[1..]);
    if s.sched.cpus[n].timer == 1 {
      TickedPreempt(c, s.sched, n);
    }
  }

  lemma BurstOk(c: Config, s: Sim, n: nat)
    requires Inv(c, s) && Settled(s.sched) && Busy(s.sched, n)
    requires var ops := Left(s, Current(s.sched, n)); ops != [] && ops[0] > 0
    ensures Inv(c, Burst(c, s, n, Left(s, Current(s.sched, n))))
  {
    RunningHasBurst(c, s, n);
    hide InProgram, SchedOk, Settled, Burst, Preempt, Ticked, CountEmpty;
    var p := Current(s.sched, n);
    var ops := [s.rest[p][0] - 1] + s.rest[p][1..];
    BurstEffect(c, s, n, p, s.rest[p]);
    CountSet(s.rest, p, ops);
    BurstInProgram(s.sched.state, s.rest, s.io, s.created, p, ops);
    if s.sched.cpus[n].timer == 1 {
      PreemptOk(c, s.sched, n);
      InterchangeInProgram(s.sched.state, Preempt(c, s.sched, n).state, s.rest[p := ops], s.io, s.created);
    } else {
      TickedOk(c, s.sched, n);
      TickedState(s.sched, n);
    }
  }

  lemma TickedState(s: Sched, n: nat)
    requires Busy(s, n)
    ensures Ticked(s, n).state == s.state
  {
  }

  lemma SimulateCpuOk(c: Config, s: Sim, n: nat)
    requires Inv(c, s) && Settled(s.sched) && n < |s.sched.cpus|
    ensures Inv(c, SimulateCpu(c, s, n))
  {
    hide InProgram, SchedOk, Settled, Burst, Yield, Terminate, CountEmpty;
    if Busy(s.sched, n) {
      RunningHasBurst(c, s, n);
      var p := Current(s.sched, n);
      var ops := s.rest[p];
      if ops[0] > 0 {
        BurstOk(c, s, n);
      } else if |ops| == 1 {
        SetLeftIs(s.rest, p, []);
        CountSet(s.rest, p, []);
        LeaveOk(c, s.sched, n, Terminated);
        ToEndInProgram(s.sched.state, s.rest, s.io, s.created, p);
        InterchangeInProgram(s.sched.state[p := Terminated], Terminate(c, s.sched, n).state, s.rest[p := []], s.io,
                             s.created);
      } else {
        SetLeftIs(s.rest, p, ops[1..]);
        CountSet(s.rest, p, ops[1..]);
        LeaveOk(c, s.sched, n, Waiting);
        ToIoInProgram(s.sched.state, s.rest, s.io, s.created, p);
        InterchangeInProgram(s.sched.state[p := Waiting], Yield(c, s.sched, n).state, s.rest[p := ops[1..]],
                             s.io + [Request(p, ops[1])], s.created);
      }
    }
  }

  lemma {:induction false} SimulateIoOk(c: Config, s: Sim)
    requires ConfigOk(c) && Inv(c, s) && Settled(s.sched)
    ensures Inv(c, SimulateIo(c, s))
  {
    if s.io != [] {
      IoDoneInProgram(s.sched.state, s.rest, s.io, s.created);
      var p := s.io[0].pid;
      Lengths(c, s);
      ParityOfWaiting(c, s, p);
      hide InProgram, SchedOk, Settled, WakeUp;
      if s.io[0].time > 0 {
        IoTickInProgram(s.sched.state, s.rest, s.io, s.created, s.io[0].time - 1);
      } else {
        var ops := s.rest[p][1..];
        SetLeftIs(s.rest, p, ops);
        CountSet(s.rest, p, ops);
        WakeUpOk(c, s.sched, p);
        InterchangeInProgram(s.sched.state[p := Ready], WakeUp(c, s.sched, p).state, s.rest[p := ops], s.io[1..],
                             s.created);
      }
    }
  }

  lemma Lengths(c: Config, s: Sim)
    requires Inv(c, s)
    ensures |s.sched.state| == |s.rest| == |c.priority| && s.created <= |c.priority| && |s.sched.cpus| == c.cpus
  {
  }

  lemma AtBounded(c: Config, s: Sim)
    requires Inv(c, s)
    ensures s.at <= c.cpus + 1
  {
  }

  lemma ParityOfWaiting(c: Config, s: Sim, p: Pid)
    requires Inv(c, s) && p < |s.rest| == |s.sched.state| && s.sched.state[p] == Waiting
    ensures |s.rest[p]| >= 2
  {
  }

  lemma SimulateCreatOk(c: Config, s: Sim)
    requires ConfigOk(c) && Inv(c, s) && Settled(s.sched)
    ensures Inv(c, SimulateCreat(c, s))
  {
    Lengths(c, s);
    if s.time % 10 == 0 && s.created < |c.priority| {
      var p := s.created;
      assert s.sched.state[p] == New;
      CreatInProgram(s.sched.state, s.rest, s.io, s.created);
      hide InProgram, SchedOk, Settled, WakeUp;
      WakeUpOk(c, s.sched, p);
      InterchangeInProgram(s.sched.state[p := Ready], WakeUp(c, s.sched, p).state, s.rest, s.io, s.created + 1);
    }
  }

  lemma {:induction false} StepKeepsInv(c: Config, s: Sim, e: Event)
    requires ConfigOk(c) && Inv(c, s) && Enabled(c, s, e)
    ensures Inv(c, Apply(c, s, e))
  {
    Lengths(c, s);
    match e
    case Next =>
      hide InProgram, SchedOk, Settled, SimulateCpu, SimulateIo, SimulateCreat;
      if s.at < c.cpus {
        SimulateCpuOk(c, s, s.at);
      } else if s.at == c.cpus {
        SimulateIoOk(c, s);
      } else {
        SimulateCreatOk(c, s);
      }
    case Dispatch(n) =>
      IdleOk(c, s.sched, n);
      hide InProgram, SchedOk, Settled, Idle;
      InterchangeInProgram(s.sched.state, Idle(c, s.sched, n).state, s.rest, s.io, s.created);
  }

  lemma StartOk(c: Config, programs: seq<Program>)
    requires ConfigOk(c) && ProgramsOk(c, programs)
    ensures Inv(c, Start(c, programs))
  {
    NoneEmpty(programs);
  }

  lemma {:induction false} NoneEmpty(rest: seq<Program>)
    requires forall p :: 0 <= p < |rest| ==> rest[p] != []
    ensures CountEmpty(rest) == 0
  {
    if rest != [] {
      NoneEmpty(rest[..|rest| - 1]);
    }
  }

  /** In every run, in every mode: each process is exactly where its state says (new, queued once, running on
      exactly one CPU, waiting for I/O with one request, terminated), every idle CPU dispatches at once, and
      in static priority mode no ready process outranks a running one. */
  lemma {:induction false} RunKeepsInv(c: Config, programs: seq<Program>, events: seq<Event>)
    requires ConfigOk(c) && ProgramsOk(c, programs) && Runs(c, Start(c, programs), events)
    ensures Inv(c, After(c, Start(c, programs), events))
  {
    var s0 := Start(c, programs);
    if events == [] {
      StartOk(c, programs);
    } else {
      var before := events[..|events| - 1];
      RunKeepsInv(c, programs, before);
      StepKeepsInv(c, After(c, s0, before), events[|events| - 1]);
    }
  }

  /** The state field of every process tells, both ways, where the process is; nothing is queued, run or
      waiting twice. */
  lemma {:induction false} StateTellsPlace(c: Config, programs: seq<Program>, events: seq<Event>, p: Pid)
    requires ConfigOk(c) && ProgramsOk(c, programs) && Runs(c, Start(c, programs), events) && p < |c.priority|
    ensures var s := After(c, Start(c, programs), events);
      && |s.sched.state| == |s.rest| == |c.priority| && Distinct(s.sched.queue)
      && (forall m, n :: Busy(s.sched, m) && Busy(s.sched, n) && m != n ==> Current(s.sched, m) != Current(s.sched, n))
      && (s.sched.state[p] == New <==> p >= s.created)
      && (s.sched.state[p] == Ready <==> p in s.sched.queue)
      && (s.sched.state[p] == Running <==> OnSomeCpu(s.sched, p))
      && (s.sched.state[p] == Waiting <==> InIo(s.io, p))
      && (s.sched.state[p] == Terminated <==> s.rest[p] == [])
  {
    hide Runs, After, Start, ProgramsOk, ConfigOk;
    RunKeepsInv(c, programs, events);
  }

  lemma CpuTurnSettles(c: Config, s: Sim, n: nat)
    requires Settled(s.sched) && n < |s.sched.cpus|
    ensures Settled(SimulateCpu(c, s, n).sched)
  {
    hide Schedule;
    if Busy(s.sched, n) {
      SameCurrentsOrdered(c, s.sched, Ticked(s.sched, n));
      PreemptSettles(c, s.sched, n);
      TickedPreempt(c, s.sched, n);
      LeaveSettles(c, s.sched, n, Waiting);
      LeaveSettles(c, s.sched, n, Terminated);
    }
  }

  lemma LeaveSettles(c: Config, s: Sched, n: nat, v: ProcState)
    requires Settled(s) && Busy(s, n)
    ensures Settled(Schedule(c, s.(state := SetState(s.state, Current(s, n), v)), n))
  {
    var s1 := s.(state := SetState(s.state, Current(s, n), v));
    assert s.queue != [] ==> forall m :: 0 <= m < |s.cpus| ==> Busy(s1, m);
    ScheduleSettles(c, s1, n);
  }

  /** The only step that leaves an idle CPU beside a ready process is a wake-up that just made it ready. */
  lemma UnsettledIsWoken(c: Config, s: Sim, e: Event)
    requires Inv(c, s) && Enabled(c, s, e)
    ensures Settled(Apply(c, s, e).sched) || (e == Next && JustWoken(s.sched, Apply(c, s, e).sched))
  {
    hide SimulateCpu, WakeUp, Idle, Settled, SchedOk, InProgram, JustWoken;
    Lengths(c, s);
    match e
    case Dispatch(n) => SchedOkOf(c, s); IdleOk(c, s.sched, n);
    case Next =>
      if s.at < c.cpus {
        CpuTurnSettles(c, s, s.at);
      } else if s.at == c.cpus {
        if s.io != [] {
          IoDoneInProgram(s.sched.state, s.rest, s.io, s.created);
          WakeUpUnsettled(c, s.sched, s.io[0].pid);
        }
      } else if s.created < |c.priority| {
        NewIsNew(c, s);
        WakeUpUnsettled(c, s.sched, s.created);
      }
  }

  lemma SchedOkOf(c: Config, s: Sim)
    requires Inv(c, s)
    ensures SchedOk(c, s.sched)
  {
  }

  lemma NewIsNew(c: Config, s: Sim)
    requires Inv(c, s) && s.created < |c.priority|
    ensures s.created < |s.sched.state| && s.sched.state[s.created] == New
  {
  }

  /** Static priority: in every state of every run, either the last step just woke the only ready process,
      beside an idle CPU, or no CPU is idle beside a ready process and no ready process has higher priority
      than any running one. */
  lemma {:induction false} StaticPriorityDispatch(c: Config, programs: seq<Program>, events: seq<Event>)
    requires ConfigOk(c) && c.byPriority && ProgramsOk(c, programs) && Runs(c, Start(c, programs), events)
    ensures var s := After(c, Start(c, programs), events).sched;
      || (events != [] && events[|events| - 1] == Next
          && JustWoken(After(c, Start(c, programs), events[..|events| - 1]).sched, s))
      || ((s.queue == [] || forall n :: 0 <= n < |s.cpus| ==> Busy(s, n))
          && forall p: Pid, n :: p in s.queue && Busy(s, n) ==> Prio(c, p) <= Prio(c, Current(s, n)))
  {
    hide Start, ProgramsOk, ConfigOk, Inv, Enabled, Apply, JustWoken;
    RunKeepsInv(c, programs, events);
    var s := After(c, Start(c, programs), events);
    if Settled(s.sched) {
      SettledIsOrdered(c, s);
    } else if events == [] {
      StartSettled(c, programs);
    } else {
      var before := events[..|events| - 1];
      RunKeepsInv(c, programs, before);
      UnsettledIsWoken(c, After(c, Start(c, programs), before), events[|events| - 1]);
    }
  }

  lemma StartSettled(c: Config, programs: seq<Program>)
    ensures Settled(Start(c, programs).sched)
  {
  }

  lemma SettledIsOrdered(c: Config, s: Sim)
    requires c.byPriority && Inv(c, s) && Settled(s.sched)
    ensures s.sched.queue == [] || forall n :: 0 <= n < |s.sched.cpus| ==> Busy(s.sched, n)
    ensures forall p: Pid, n :: p in s.sched.queue && Busy(s.sched, n) ==> Prio(c, p) <= Prio(c, Current(s.sched, n))
  {
  }
}
