/** Every simulation ends, within a number of ticks read off the programs. */
module SchedTermination {
  import opened SchedState
  import opened SchedSim
  import opened SchedSimInvariant

  /** The sum of (time + 1) over the bursts of a program. */
  function Owed(ops: Program): nat {
    if ops == [] then 0 else ops[0] + 1 + Owed(ops[1..])
  }

  /** What a process owes beyond its request in the I/O queue. */
  function Pending(ops: Program): nat {
    if ops != [] && |ops| % 2 == 0 then Owed(ops[1..]) else Owed(ops)
  }

  function PendingAll(rest: seq<Program>): nat {
    if rest == [] then 0 else PendingAll(rest[..|rest| - 1]) + Pending(rest[|rest| - 1])
  }

  function IoWork(io: seq<Request>): nat {
    if io == [] then 0 else io[0].time + 1 + IoWork(io[1..])
  }

  function Work(s: Sim): nat {
    PendingAll(s.rest) + IoWork(s.io)
  }

  /** The sum of (time + 1) over all bursts of all programs. */
  function TotalOwed(programs: seq<Program>): nat {
    if programs == [] then 0 else TotalOwed(programs[..|programs| - 1]) + Owed(programs[|programs| - 1])
  }

  /** The ticks by which every process has been created. */
  function Creation(c: Config): nat {
    if c.priority == [] then 0 else 10 * (|c.priority| - 1) + 1
  }

  lemma {:induction false} PendingSet(rest: seq<Program>, p: Pid, ops: Program)
    requires p < |rest|
    ensures PendingAll(rest[p := ops]) == PendingAll(rest) - Pending(rest[p]) + Pending(ops)
  {
    var n := |rest| - 1;
    if p < n {
      PendingSet(rest[..n], p, ops);
      assert rest[p := ops][..n] == rest[..n][p := ops];
    } else {
      assert rest[p := ops][..n] == rest[..n];
    }
  }

  lemma {:induction false} IoWorkAppend(io: seq<Request>, r: Request)
    ensures IoWork(io + [r]) == IoWork(io) + r.time + 1
  {
    if io != [] {
      IoWorkAppend(io[1..], r);
      assert (io + [r])[1..] == io[1..] + [r];
    }
  }

  // ---------------------------------------------------------------- work done by each step

  /** What one tick does to the program of a process on a CPU. */
  lemma TickOfProgram(ops: Program)
    requires |ops| % 2 == 1
    ensures ops[0] > 0 ==> Pending([ops[0] - 1] + ops[1..]) == Pending(ops) - 1
    ensures ops[0] == 0 && |ops| == 1 ==> Pending([]) == Pending(ops) - 1
    ensures ops[0] == 0 && |ops| > 1 ==> Pending(ops[1..]) + ops[1] + 1 == Pending(ops) - 1
  {
    if ops[0] > 0 {
      assert ([ops[0] - 1] + ops[1..])[1..] == ops[1..];
    } else if |ops| > 1 {
      assert Owed(ops[1..]) == ops[1] + 1 + Owed(ops[1..][1..]);
    }
  }

  /** What a CPU's turn does to the programs and the I/O queue. */
  lemma CpuTurnEffect(c: Config, s: Sim, n: nat, p: Pid, ops: Program)
    requires Busy(s.sched, n) && p == Current(s.sched, n) && p < |s.rest| && ops == s.rest[p] && |ops| % 2 == 1
    ensures var s' := SimulateCpu(c, s, n);
      && (ops[0] > 0 ==> s'.io == s.io && s'.rest == s.rest[p := [ops[0] - 1] + ops[1..]])
      && (ops[0] == 0 && |ops| == 1 ==> s'.io == s.io && s'.rest == s.rest[p := []])
      && (ops[0] == 0 && |ops| > 1 ==> s'.io == s.io + [Request(p, ops[1])] && s'.rest == s.rest[p := ops[1..]])
  {
    hide Preempt, Yield, Terminate;
    if ops[0] > 0 {
      SetLeftIs(s.rest, p, [ops[0] - 1] + ops[1..]);
    }
    SetLeftIs(s.rest, p, ops[1..]);
    SetLeftIs(s.rest, p, []);
  }

  lemma SimulateCpuWork(c: Config, s: Sim, n: nat)
    requires Inv(c, s) && n < |s.sched.cpus|
    ensures Work(SimulateCpu(c, s, n)) == Work(s) - if Busy(s.sched, n) then 1 else 0
  {
    if Busy(s.sched, n) {
      RunningHasBurst(c, s, n);
      hide Inv, SimulateCpu, Pending, Owed, PendingAll, IoWork;
      var p := Current(s.sched, n);
      var ops := s.rest[p];
      TickOfProgram(ops);
      CpuTurnEffect(c, s, n, p, ops);
      PendingSet(s.rest, p, if ops[0] > 0 then [ops[0] - 1] + ops[1..] else if |ops| > 1 then ops[1..] else []);
      if |ops| > 1 {
        IoWorkAppend(s.io, Request(p, ops[1]));
      }
    }
  }

  lemma IoTurnEffect(c: Config, s: Sim, p: Pid)
    requires s.io != [] && p == s.io[0].pid && p < |s.rest| && s.rest[p] != []
    ensures var s' := SimulateIo(c, s);
      && (s.io[0].time > 0 ==> s'.rest == s.rest && s'.io == [Request(p, s.io[0].time - 1)] + s.io[1..])
      && (s.io[0].time == 0 ==> s'.rest == s.rest[p := s.rest[p][1..]] && s'.io == s.io[1..])
  {
    hide WakeUp;
    SetLeftIs(s.rest, p, s.rest[p][1..]);
  }

  lemma IoTurnWork(s: Sim, s': Sim, p: Pid)
    requires s.io != [] && p == s.io[0].pid && p < |s.rest| && |s.rest[p]| >= 2 && |s.rest[p]| % 2 == 0
    requires s.io[0].time > 0 ==> s'.rest == s.rest && s'.io == [Request(p, s.io[0].time - 1)] + s.io[1..]
    requires s.io[0].time == 0 ==> s'.rest == s.rest[p := s.rest[p][1..]] && s'.io == s.io[1..]
    ensures Work(s') == Work(s) - 1
  {
    hide Owed, PendingAll;
    if s.io[0].time == 0 {
      PendingSet(s.rest, p, s.rest[p][1..]);
    } else {
      assert s'.io[1..] == s.io[1..];
    }
  }

  lemma SimulateIoWork(c: Config, s: Sim)
    requires Inv(c, s)
    ensures Work(SimulateIo(c, s)) == Work(s) - if s.io != [] then 1 else 0
  {
    if s.io != [] {
      HeadOfIo(c, s);
      hide *;
      IoTurnEffect(c, s, s.io[0].pid);
      IoTurnWork(s, SimulateIo(c, s), s.io[0].pid);
    }
  }

  /** The process of the request at the head of the I/O queue has that I/O burst and more to come. */
  lemma HeadOfIo(c: Config, s: Sim)
    requires Inv(c, s) && s.io != []
    ensures var p := s.io[0].pid; p < |s.rest| && |s.rest[p]| >= 2 && |s.rest[p]| % 2 == 0
  {
    IoDoneInProgram(s.sched.state, s.rest, s.io, s.created);
    var p := s.io[0].pid;
    Lengths(c, s);
    ParityOfWaiting(c, s, p);
    EvenRest(c, s, p);
  }

  lemma EvenRest(c: Config, s: Sim, p: Pid)
    requires Inv(c, s) && p < |s.rest| == |s.sched.state| && s.sched.state[p] == Waiting
    ensures |s.rest[p]| % 2 == 0
  {
  }

  // ---------------------------------------------------------------- every tick does work

  /** This tick has yet to do some work: a CPU whose turn is to come is busy, or the I/O queue is. */
  ghost predicate WorkAhead(c: Config, s: Sim) {
    || (exists n :: s.at <= n && Busy(s.sched, n))
    || (s.at <= c.cpus && s.io != [])
    || (s.at == 0 && s.sched.queue != [])
  }

  /** Once all processes have been created, every tick does at least one unit of work. */
  ghost predicate OnTrack(c: Config, s: Sim, total: nat) {
    && (s.created < |c.priority| ==> s.time <= 10 * s.created)
    && Work(s) <= total
    && (s.time >= Creation(c) ==>
         || s.time + Work(s) < Creation(c) + total
         || (s.time + Work(s) == Creation(c) + total && (WorkAhead(c, s) || Finished(c, s))))
  }

  /** At the start of a tick with processes alive, all of them created, there is work to do. */
  lemma AliveMeansWork(c: Config, s: Sim)
    requires Inv(c, s) && s.at == 0 && s.created == |c.priority| && !Finished(c, s)
    ensures WorkAhead(c, s)
  {
    var p := SomeLeft(s.rest);
    match s.sched.state[p]
    case Ready => assert p in s.sched.queue;
    case Running => assert OnSomeCpu(s.sched, p);
    case Waiting => assert InIo(s.io, p);
  }

  lemma {:induction false} SomeLeft(rest: seq<Program>) returns (p: nat)
    requires CountEmpty(rest) < |rest|
    ensures p < |rest| && rest[p] != []
  {
    if rest[|rest| - 1] != [] {
      p := |rest| - 1;
    } else {
      p := SomeLeft(rest[..|rest| - 1]);
    }
  }

  lemma {:induction false} NoneLeft(rest: seq<Program>)
    ensures CountEmpty(rest) <= |rest|
    ensures CountEmpty(rest) == |rest| ==> forall p :: 0 <= p < |rest| ==> rest[p] == []
  {
    if rest != [] {
      NoneLeft(rest[..|rest| - 1]);
    }
  }

  /** A CPU's turn leaves the other CPUs and the requests already queued in place. */
  lemma CpuTurnKeepsAhead(c: Config, s: Sim, n: nat)
    requires n < |s.sched.cpus| && !Busy(s.sched, n)
    ensures SimulateCpu(c, s, n) == s
  {
  }

  lemma ReadyMeansBusy(s: Sched, n: nat)
    requires Settled(s) && n < |s.cpus|
    ensures s.queue != [] ==> Busy(s, n)
  {
  }

  lemma CpuTurnOnTrack(c: Config, s: Sim, total: nat)
    requires Inv(c, s) && OnTrack(c, s, total) && s.at < c.cpus && Enabled(c, s, Next)
    ensures OnTrack(c, Advance(c, s), total)
  {
    hide Inv, PendingAll, IoWork, Settled, Creation;
    var n := s.at;
    Lengths(c, s);
    SimulateCpuWork(c, s, n);
    ReadyMeansBusy(s.sched, n);
    if !Busy(s.sched, n) {
      CpuTurnKeepsAhead(c, s, n);
      if exists m :: s.at <= m && Busy(s.sched, m) {
        var m :| s.at <= m && Busy(s.sched, m);
        assert s.at + 1 <= m && Busy(Advance(c, s).sched, m);
      }
    }
  }

  lemma IoTurnOnTrack(c: Config, s: Sim, total: nat)
    requires ConfigOk(c) && Inv(c, s) && OnTrack(c, s, total) && s.at == c.cpus && Enabled(c, s, Next)
    ensures OnTrack(c, Advance(c, s), total)
  {
    SimulateIoWork(c, s);
    Lengths(c, s);
  }

  lemma CreatTurnOnTrack(c: Config, s: Sim, total: nat)
    requires ConfigOk(c) && Inv(c, s) && OnTrack(c, s, total) && s.at == c.cpus + 1 && Enabled(c, s, Next)
    ensures OnTrack(c, Advance(c, s), total)
  {
    Lengths(c, s);
    var s' := Advance(c, s);
    StepKeepsInv(c, s, Next);
    Lengths(c, s');
    if s'.time >= Creation(c) && s'.created == |c.priority| && !Finished(c, s') {
      AliveMeansWork(c, s');
    }
  }

  lemma DispatchOnTrack(c: Config, s: Sim, total: nat, n: nat)
    requires Inv(c, s) && OnTrack(c, s, total) && Enabled(c, s, Dispatch(n))
    ensures OnTrack(c, Apply(c, s, Dispatch(n)), total)
  {
    var s' := Apply(c, s, Dispatch(n));
    assert Busy(s'.sched, n);
    assert forall m :: Busy(s.sched, m) ==> Busy(s'.sched, m);
  }

  // ---------------------------------------------------------------- runs

  lemma StartOnTrack(c: Config, programs: seq<Program>)
    requires ConfigOk(c) && ProgramsOk(c, programs)
    ensures OnTrack(c, Start(c, programs), TotalOwed(programs))
  {
    StartOwes(programs);
  }

  lemma {:induction false} StartOwes(programs: seq<Program>)
    requires forall p :: 0 <= p < |programs| ==> |programs[p]| % 2 == 1
    ensures PendingAll(programs) == TotalOwed(programs)
  {
    if programs != [] {
      StartOwes(programs[..|programs| - 1]);
    }
  }

  lemma StepOnTrack(c: Config, s: Sim, e: Event, total: nat)
    requires ConfigOk(c) && Inv(c, s) && OnTrack(c, s, total) && Enabled(c, s, e)
    ensures OnTrack(c, Apply(c, s, e), total)
  {
    match e
    case Dispatch(n) => DispatchOnTrack(c, s, total, n);
    case Next =>
      hide OnTrack, SchedOk, InProgram, Advance, Settled, Finished, CountEmpty;
      if s.at < c.cpus {
        CpuTurnOnTrack(c, s, total);
      } else if s.at == c.cpus {
        IoTurnOnTrack(c, s, total);
      } else {
        CreatTurnOnTrack(c, s, total);
      }
  }

  /** The events so far are at most two for each part of a tick: an idle CPU dispatches at most once between. */
  ghost predicate Paced(c: Config, s: Sim, n: nat) {
    n + (if Settled(s.sched) then 0 else 1) <= 2 * ((c.cpus + 2) * s.time + s.at)
  }

  lemma StepPaced(c: Config, s: Sim, e: Event, n: nat)
    requires ConfigOk(c) && Inv(c, s) && Paced(c, s, n) && Enabled(c, s, e)
    ensures Paced(c, Apply(c, s, e), n + 1)
  {
    Lengths(c, s);
    match e
    case Dispatch(k) =>
      assert !Settled(s.sched);
      IdleOk(c, s.sched, k);
    case Next =>
      hide Inv, Settled, SimulateCpu, SimulateIo, SimulateCreat;
      assert s.at >= c.cpus + 1 ==> (c.cpus + 2) * (s.time + 1) == (c.cpus + 2) * s.time + c.cpus + 2;
      AtBounded(c, s);
  }

  lemma {:induction false} RunOnTrack(c: Config, programs: seq<Program>, events: seq<Event>)
    requires ConfigOk(c) && ProgramsOk(c, programs) && Runs(c, Start(c, programs), events)
    ensures Inv(c, After(c, Start(c, programs), events))
    ensures OnTrack(c, After(c, Start(c, programs), events), TotalOwed(programs))
    ensures Paced(c, After(c, Start(c, programs), events), |events|)
  {
    hide Inv, OnTrack, Paced, Enabled, Apply;
    RunKeepsInv(c, programs, events);
    if events == [] {
      StartOnTrack(c, programs);
      StartPaced(c, programs);
    } else {
      var before := events[..|events| - 1];
      var s := After(c, Start(c, programs), before);
      RunOnTrack(c, programs, before);
      StepOnTrack(c, s, events[|events| - 1], TotalOwed(programs));
      StepPaced(c, s, events[|events| - 1], |before|);
    }
  }

  lemma StartPaced(c: Config, programs: seq<Program>)
    ensures Paced(c, Start(c, programs), 0)
  {
  }

  ghost predicate Stuck(c: Config, s: Sim) {
    forall e :: !Enabled(c, s, e)
  }

  lemma TimeBound(c: Config, s: Sim, owed: nat)
    requires OnTrack(c, s, owed)
    ensures s.time <= owed + Creation(c)
  {
  }

  /** Two events for each CPU, the I/O queue and creation, in each of so many ticks and one more. */
  function EventsIn(c: Config, ticks: nat): nat {
    2 * (c.cpus + 2) * (ticks + 1)
  }

  lemma EventBound(c: Config, s: Sim, n: nat, total: nat)
    requires Paced(c, s, n) && s.time <= total && s.at <= c.cpus + 1
    ensures n <= EventsIn(c, total)
  {
    assert (c.cpus + 2) * s.time <= (c.cpus + 2) * total;
    assert 2 * ((c.cpus + 2) * total + c.cpus + 2) == 2 * (c.cpus + 2) * (total + 1);
  }

  lemma StuckIsFinished(c: Config, s: Sim)
    requires Inv(c, s)
    ensures Stuck(c, s) <==> Finished(c, s)
  {
    if !Settled(s.sched) {
      var n :| 0 <= n < |s.sched.cpus| && s.sched.cpus[n].current.None?;
      assert Enabled(c, s, Dispatch(n));
      UnfinishedIfReady(c, s);
    } else {
      if !Finished(c, s) {
        assert Enabled(c, s, Next);
      } else {
        forall e ensures !Enabled(c, s, e) {
          if e.Dispatch? && e.cpu < |s.sched.cpus| && !Busy(s.sched, e.cpu) {
            assert s.sched.queue == [];
          }
        }
      }
    }
  }

  lemma UnfinishedIfReady(c: Config, s: Sim)
    requires Inv(c, s) && s.sched.queue != []
    ensures !Finished(c, s)
  {
    var p := s.sched.queue[0];
    assert p in s.sched.queue;
    NoneLeft(s.rest);
  }

  lemma Conclude(c: Config, s: Sim, n: nat, owed: nat)
    requires Inv(c, s) && OnTrack(c, s, owed) && Paced(c, s, n)
    ensures s.time <= owed + Creation(c)
    ensures n <= EventsIn(c, owed + Creation(c))
    ensures Stuck(c, s) <==> Finished(c, s)
    ensures Finished(c, s) ==> forall v :: v in s.sched.state ==> v == Terminated
  {
    AtBounded(c, s);
    StuckIsFinished(c, s);
    AllTerminated(c, s);
    hide Inv, Paced, Stuck, Finished, Creation;
    TimeBound(c, s, owed);
    EventBound(c, s, n, owed + Creation(c));
  }

  /** For any programs, any number of CPUs and any mode: the simulation lasts at most the sum of (time + 1)
      over all bursts plus one tick and ten for each process but the first, which is when the last one is
      created; it can only stop when it is finished, and then every process has terminated. */
  lemma {:induction false} SimulationTerminates(c: Config, programs: seq<Program>, events: seq<Event>)
    requires ConfigOk(c) && ProgramsOk(c, programs) && Runs(c, Start(c, programs), events)
    ensures var s := After(c, Start(c, programs), events);
      && s.time <= TotalOwed(programs) + Creation(c)
      && |events| <= EventsIn(c, TotalOwed(programs) + Creation(c))
      && (Stuck(c, s) <==> Finished(c, s))
      && (Finished(c, s) ==> forall v :: v in s.sched.state ==> v == Terminated)
  {
    hide *;
    var s := After(c, Start(c, programs), events);
    RunOnTrack(c, programs, events);
    Conclude(c, s, |events|, TotalOwed(programs));
  }

  lemma AllTerminated(c: Config, s: Sim)
    requires Inv(c, s)
    ensures Finished(c, s) ==> forall v :: v in s.sched.state ==> v == Terminated
  {
    Lengths(c, s);
    NoneLeft(s.rest);
  }
}
