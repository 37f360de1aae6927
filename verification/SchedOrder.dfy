/** Whole runs: in which order processes leave the ready queue and the I/O queue, and when they are created. */
module SchedOrder {
  import opened Wrappers
  import opened SchedState
  import opened SchedSim
  import opened SchedSimInvariant
  import opened SchedDispatch
  import opened SchedRoundRobin
  import opened SchedTermination

  // ---------------------------------------------------------------- the ready queue, step by step

  /** Some CPU has got a process that it did not run before. */
  ghost predicate PutOn(s: Sched, s': Sched, n: int) {
    Busy(s', n) && !(Busy(s, n) && Current(s, n) == Current(s', n))
  }

  /** The queue has got newcomers at its tail, and nothing has left it. */
  ghost predicate OnlyJoined(s: Sched, s': Sched, more: seq<Pid>) {
    s'.queue == s.queue + more && forall x :: x in more ==> x !in s.queue
  }

  /** The queue, with newcomers at its tail, has lost its next process to CPU `n`, and no other got any. */
  ghost predicate LostNext(c: Config, s: Sched, s': Sched, more: seq<Pid>, n: nat, k: nat) {
    var q := s.queue + more;
    && NextAt(c, q, k) && s'.queue == q[..k] + q[k + 1..]
    && Busy(s', n) && Current(s', n) == q[k]
    && (forall m :: PutOn(s, s', m) ==> m == n)
    && (forall x :: x in more ==> x !in s.queue)
  }

  ghost predicate Moves(c: Config, s: Sched, s': Sched) {
    || (exists more :: OnlyJoined(s, s', more) && (!c.byPriority ==> forall n :: !PutOn(s, s', n)))
    || (exists more, n: nat, k: nat :: LostNext(c, s, s', more, n, k))
  }

  lemma Unmoved(c: Config, s: Sched, s': Sched)
    requires s'.queue == s.queue && forall n :: !PutOn(s, s', n)
    ensures Moves(c, s, s')
  {
    assert OnlyJoined(s, s', []);
  }

  lemma DispatchedMoves(c: Config, s: Sched, s': Sched, more: seq<Pid>, n: nat)
    requires n < |s.cpus| && Dispatched(c, s.queue + more, s.cpus, s', n) && forall x :: x in more ==> x !in s.queue
    ensures Moves(c, s, s')
  {
    if s.queue + more == [] {
      Unmoved(c, s, s');
    } else {
      var k: nat :| Takes(c, s.queue + more, s.cpus, s', n, k);
      assert LostNext(c, s, s', more, n, k);
    }
  }

  lemma TurnMoves(c: Config, s: Sim)
    requires Inv(c, s) && Enabled(c, s, Next) && s.at < c.cpus
    ensures Moves(c, s.sched, Advance(c, s).sched)
  {
    hide Inv, Enabled, Advance, Dispatched, Moves;
    Lengths(c, s);
    var n, s' := s.at, Advance(c, s).sched;
    if Busy(s.sched, n) {
      TurnLaw(c, s);
      RunnerNotQueued(c, s, n);
      var r := Current(s.sched, n);
      if Left(s, r)[0] == 0 {
        assert s.sched.queue + [] == s.sched.queue;
        DispatchedMoves(c, s.sched, s', [], n);
      } else if s.sched.cpus[n].timer == 1 {
        DispatchedMoves(c, s.sched, s', [r], n);
      } else {
        Unmoved(c, s.sched, s');
      }
    } else {
      IdleTurnLaw(c, s);
      Unmoved(c, s.sched, s');
    }
  }

  lemma WakingMoves(c: Config, s: Sim)
    requires ConfigOk(c) && Inv(c, s) && Enabled(c, s, Next) && s.at >= c.cpus
    ensures Moves(c, s.sched, Advance(c, s).sched)
  {
    hide Inv, Enabled, Advance, WakeUp, Consistent, Ordered, Settled, Woken, FirstLowest, ConfigOk;
    WakingLaw(c, s);
    match Woken(c, s)
    case None => Unmoved(c, s.sched, s.sched);
    case Some(p) =>
      WokenWasAway(c, s);
      SchedOkOf(c, s);
      WakeUpLaw(c, s.sched, p);
      var s' := WakeUp(c, s.sched, p);
      ReadyIsQueued(c, s.sched, p);
      if Displaces(c, s.sched, p) {
        var n: nat :| FirstLowest(c, s.sched, n) && Busy(s.sched, n) && Swapped(c, s.sched, s', n, p);
        RunnerNotQueued(c, s, n);
        assert OnlyJoined(s.sched, s', [Current(s.sched, n)]);
      } else {
        assert OnlyJoined(s.sched, s', [p]);
      }
  }

  lemma ReadyIsQueued(c: Config, s: Sched, p: Pid)
    requires Consistent(c, s) && p < |s.state| && s.state[p] != Ready
    ensures p !in s.queue
  {
  }

  /** A step adds newcomers to the tail of the queue and takes at most the next in the queue, for a CPU. */
  lemma StepMoves(c: Config, s: Sim, e: Event)
    requires ConfigOk(c) && Inv(c, s) && Enabled(c, s, e)
    ensures Moves(c, s.sched, Apply(c, s, e).sched)
  {
    hide Inv, Moves, Advance, Settled, Dispatched, ConfigOk, Schedule;
    match e
    case Dispatch(n) =>
      ScheduleLaw(c, s.sched, n);
      assert s.sched.queue + [] == s.sched.queue;
      DispatchedMoves(c, s.sched, Apply(c, s, e).sched, [], n);
    case Next =>
      if s.at < c.cpus {
        TurnMoves(c, s);
      } else {
        WakingMoves(c, s);
      }
  }

  /** First come, first served: without static priorities, whatever the time slice, a step leaves the queue as
      it was with newcomers behind it, and then it puts no process on a CPU, or takes off the first process and
      puts that one on a CPU. */
  lemma FirstComeFirstServed(c: Config, s: Sim, e: Event) returns (more: seq<Pid>)
    requires ConfigOk(c) && !c.byPriority && Inv(c, s) && Enabled(c, s, e)
    ensures var q, s' := s.sched.queue + more, Apply(c, s, e).sched;
      && (forall x :: x in more ==> x !in s.sched.queue)
      && ((s'.queue == q && forall n :: !PutOn(s.sched, s', n))
          || (q != [] && s'.queue == q[1..] && OnSomeCpu(s', q[0])
              && forall n :: PutOn(s.sched, s', n) ==> Current(s', n) == q[0]))
  {
    hide Inv, Apply, Enabled, ConfigOk;
    StepMoves(c, s, e);
    var s' := Apply(c, s, e).sched;
    if exists more :: OnlyJoined(s.sched, s', more) && forall n :: !PutOn(s.sched, s', n) {
      more :| OnlyJoined(s.sched, s', more) && forall n :: !PutOn(s.sched, s', n);
    } else {
      var n: nat, k: nat;
      more, n, k :| LostNext(c, s.sched, s', more, n, k);
      var q := s.sched.queue + more;
      assert q[..0] + q[1..] == q[1..];
    }
  }

  // ---------------------------------------------------------------- the ready queue over a run

  /** Of two places in the queue, `i` is to be served before `j`. */
  predicate Before(c: Config, q: seq<Pid>, i: nat, j: nat)
    requires i < |q| && j < |q|
  {
    if c.byPriority then Prio(c, q[i]) > Prio(c, q[j]) || (Prio(c, q[i]) == Prio(c, q[j]) && i < j) else i < j
  }

  /** Both are queued, and `x` is to be served before `y`. */
  ghost predicate Ahead(c: Config, q: seq<Pid>, x: Pid, y: Pid) {
    exists i: nat, j: nat :: i < |q| && j < |q| && q[i] == x && q[j] == y && Before(c, q, i, j)
  }

  lemma JoinedKeepsAhead(c: Config, q: seq<Pid>, more: seq<Pid>, x: Pid, y: Pid)
    requires Ahead(c, q, x, y)
    ensures Ahead(c, q + more, x, y)
  {
    var i: nat, j: nat :| i < |q| && j < |q| && q[i] == x && q[j] == y && Before(c, q, i, j);
    var r := q + more;
    assert r[i] == x && r[j] == y && Before(c, r, i, j);
  }

  ghost predicate Once(q: seq<Pid>, y: Pid) {
    forall a, b :: 0 <= a < |q| && 0 <= b < |q| && q[a] == y && q[b] == y ==> a == b
  }

  lemma TakenKeepsAhead(c: Config, q: seq<Pid>, k: nat, x: Pid, y: Pid)
    requires Ahead(c, q, x, y) && NextAt(c, q, k) && q[k] != x && Once(q, y)
    ensures Ahead(c, q[..k] + q[k + 1..], x, y)
  {
    var i: nat, j: nat :| i < |q| && j < |q| && q[i] == x && q[j] == y && Before(c, q, i, j);
    assert q[k] != y;
    var r := q[..k] + q[k + 1..];
    var i', j' := if i < k then i else i - 1, if j < k then j else j - 1;
    assert r[i'] == x && r[j'] == y && Before(c, r, i', j');
  }

  lemma QueuedOnce(q: seq<Pid>, more: seq<Pid>, y: Pid)
    requires Distinct(q) && y in q && y !in more
    ensures Once(q + more, y)
  {
    var r := q + more;
    assert forall a :: |q| <= a < |r| ==> r[a] in more;
  }

  lemma StepKeepsAhead(c: Config, s: Sim, e: Event, x: Pid, y: Pid)
    requires ConfigOk(c) && Inv(c, s) && Enabled(c, s, e) && Ahead(c, s.sched.queue, x, y)
    requires x in Apply(c, s, e).sched.queue
    ensures Ahead(c, Apply(c, s, e).sched.queue, x, y)
  {
    QueueDistinct(c, s);
    hide Inv, Apply, Enabled, ConfigOk, Distinct, NextAt, Once;
    StepMoves(c, s, e);
    var q, s' := s.sched.queue, Apply(c, s, e).sched;
    AheadQueued(c, q, x, y);
    if exists more :: OnlyJoined(s.sched, s', more) {
      var more :| OnlyJoined(s.sched, s', more);
      JoinedKeepsAhead(c, q, more, x, y);
    } else {
      var more, n: nat, k: nat :| LostNext(c, s.sched, s', more, n, k);
      JoinedKeepsAhead(c, q, more, x, y);
      QueuedOnce(q, more, x);
      QueuedOnce(q, more, y);
      NextIsPlace(c, q + more, k);
      if (q + more)[k] == x {
        GoneOnce(q + more, k);
      }
      TakenKeepsAhead(c, q + more, k, x, y);
    }
  }

  lemma NextIsPlace(c: Config, q: seq<Pid>, k: nat)
    requires NextAt(c, q, k)
    ensures k < |q|
  {
  }

  lemma GoneOnce(q: seq<Pid>, k: nat)
    requires k < |q| && Once(q, q[k])
    ensures q[k] !in q[..k] + q[k + 1..]
  {
    var r := q[..k] + q[k + 1..];
    assert forall a :: 0 <= a < |r| ==> r[a] == q[if a < k then a else a + 1];
  }

  lemma QueueDistinct(c: Config, s: Sim)
    requires Inv(c, s)
    ensures Distinct(s.sched.queue)
  {
  }

  lemma AheadQueued(c: Config, q: seq<Pid>, x: Pid, y: Pid)
    requires Ahead(c, q, x, y)
    ensures x in q && y in q
  {
  }

  /** In every mode, over every run: of two processes in the queue the one to be served first leaves it first.
      As long as it has not left, the other is behind it, whoever joins and whoever is preempted. */
  lemma {:induction false} ServedInOrder(c: Config, s: Sim, events: seq<Event>, x: Pid, y: Pid)
    requires ConfigOk(c) && Inv(c, s) && Runs(c, s, events) && Ahead(c, s.sched.queue, x, y)
    requires WaitsThroughout(c, s, events, x)
    ensures Inv(c, After(c, s, events)) && Ahead(c, After(c, s, events).sched.queue, x, y)
  {
    hide Inv, Enabled, Apply, Ahead, ConfigOk;
    if events != [] {
      var before, e := events[..|events| - 1], events[|events| - 1];
      ServedInOrder(c, s, before, x, y);
      StepKeepsAhead(c, After(c, s, before), e, x, y);
      StepKeepsInv(c, After(c, s, before), e);
    }
  }

  // ---------------------------------------------------------------- no time slice, no preemption by it

  ghost predicate TimersOver(s: Sched) {
    forall n :: Busy(s, n) ==> s.cpus[n].timer <= 0
  }

  lemma DispatchedTimers(c: Config, q: seq<Pid>, s: Sched, s': Sched, n: nat)
    requires c.timeslice <= 0 && TimersOver(s) && n < |s.cpus| && Dispatched(c, q, s.cpus, s', n)
    ensures TimersOver(s')
  {
    hide NextAt;
    forall m | Busy(s', m) ensures s'.cpus[m].timer <= 0 {
      assert m != n ==> Busy(s, m);
    }
  }

  lemma WokenTimers(c: Config, s: Sched, s': Sched, n: nat, p: Pid)
    requires c.timeslice <= 0 && TimersOver(s) && Busy(s, n) && Swapped(c, s, s', n, p)
    ensures TimersOver(s')
  {
    forall m | Busy(s', m) ensures s'.cpus[m].timer <= 0 {
      assert m != n ==> Busy(s, m);
    }
  }

  lemma TickedTimers(s: Sched, s': Sched, n: nat)
    requires TimersOver(s) && Busy(s, n) && s'.cpus == s.cpus[n := Cpu(s.cpus[n].current, s.cpus[n].timer - 1)]
    ensures TimersOver(s')
  {
    forall m | Busy(s', m) ensures s'.cpus[m].timer <= 0 {
      assert Busy(s, m);
    }
  }

  lemma SameTimers(s: Sched, s': Sched)
    requires TimersOver(s) && s'.cpus == s.cpus
    ensures TimersOver(s')
  {
    assert forall m :: Busy(s', m) ==> Busy(s, m);
  }

  lemma StepTimers(c: Config, s: Sim, e: Event)
    requires ConfigOk(c) && c.timeslice <= 0 && Inv(c, s) && Enabled(c, s, e) && TimersOver(s.sched)
    ensures TimersOver(Apply(c, s, e).sched)
  {
    hide Inv, Advance, Settled, Dispatched, ConfigOk, Schedule, TimersOver, Consistent, Ordered, WakeUp, FirstLowest;
    var t := Apply(c, s, e).sched;
    match e
    case Dispatch(n) =>
      ScheduleLaw(c, s.sched, n);
      DispatchedTimers(c, s.sched.queue, s.sched, t, n);
    case Next =>
      Lengths(c, s);
      if s.at >= c.cpus {
        WakingLaw(c, s);
        if Woken(c, s).Some? {
          WakingTimers(c, s);
        }
      } else if !Busy(s.sched, s.at) {
        IdleTurnLaw(c, s);
      } else {
        TurnTimers(c, s);
      }
  }

  lemma TurnTimers(c: Config, s: Sim)
    requires c.timeslice <= 0 && Inv(c, s) && Enabled(c, s, Next) && TimersOver(s.sched)
    requires s.at < c.cpus && Busy(s.sched, s.at)
    ensures TimersOver(Advance(c, s).sched)
  {
    hide Inv, Enabled, Advance, Dispatched, TimersOver;
    TurnLaw(c, s);
    var n, t := s.at, Advance(c, s).sched;
    var r := Current(s.sched, n);
    if Left(s, r)[0] == 0 {
      DispatchedTimers(c, s.sched.queue, s.sched, t, n);
    } else if s.sched.cpus[n].timer == 1 {
      DispatchedTimers(c, s.sched.queue + [r], s.sched, t, n);
    } else {
      TickedTimers(s.sched, t, n);
    }
  }

  lemma WakingTimers(c: Config, s: Sim)
    requires ConfigOk(c) && c.timeslice <= 0 && Inv(c, s) && TimersOver(s.sched) && Woken(c, s).Some?
    ensures TimersOver(WakeUp(c, s.sched, Woken(c, s).value))
  {
    hide Inv, TimersOver, Consistent, Ordered, WakeUp, FirstLowest, Woken, Settled, ConfigOk;
    var p := Woken(c, s).value;
    WokenWasAway(c, s);
    SchedOkOf(c, s);
    WakeUpLaw(c, s.sched, p);
    var t := WakeUp(c, s.sched, p);
    if Displaces(c, s.sched, p) {
      var n: nat :| FirstLowest(c, s.sched, n) && Busy(s.sched, n) && Swapped(c, s.sched, t, n, p);
      WokenTimers(c, s.sched, t, n, p);
    } else {
      SameTimers(s.sched, t);
    }
  }

  lemma {:induction false} RunTimers(c: Config, programs: seq<Program>, events: seq<Event>)
    requires ConfigOk(c) && c.timeslice <= 0 && ProgramsOk(c, programs) && Runs(c, Start(c, programs), events)
    ensures TimersOver(After(c, Start(c, programs), events).sched)
  {
    if events == [] {
      assert After(c, Start(c, programs), events) == Start(c, programs);
    } else {
      hide Inv, Enabled, Apply, TimersOver, ConfigOk, ProgramsOk, Start;
      var before := events[..|events| - 1];
      RunTimers(c, programs, before);
      RunKeepsInv(c, programs, before);
      StepTimers(c, After(c, Start(c, programs), before), events[|events| - 1]);
    }
  }

  /** Without a time slice, in every run, a process leaves its CPU exactly at the end of its burst or when one
      that is woken displaces it; so in FIFO mode exactly at the end of its burst. */
  lemma {:induction false} RunsToCompletion(c: Config, programs: seq<Program>, events: seq<Event>, e: Event, n: nat)
    requires ConfigOk(c) && c.timeslice <= 0 && ProgramsOk(c, programs) && Runs(c, Start(c, programs), events)
    requires var s := After(c, Start(c, programs), events); Enabled(c, s, e) && Busy(s.sched, n)
    ensures var s := After(c, Start(c, programs), events);
      var ops := Left(s, Current(s.sched, n));
      && ops != []
      && (!Stays(s.sched, Apply(c, s, e).sched, n) <==>
           e == Next
           && ((s.at == n && ops[0] == 0)
               || (Woken(c, s).Some? && Displaces(c, s.sched, Woken(c, s).value) && FirstLowest(c, s.sched, n))))
  {
    hide Inv, Enabled, Apply, ConfigOk, ProgramsOk, Start, Stays, Displaces, FirstLowest, Woken;
    RunTimers(c, programs, events);
    RunKeepsInv(c, programs, events);
    LeavesIff(c, After(c, Start(c, programs), events), e, n);
  }

  // ---------------------------------------------------------------- creation

  /** The processes that there are at tick `t`: one for every ten ticks begun, until there are all. */
  function CreatedBy(c: Config, t: nat): nat {
    var k := (t + 9) / 10;
    if k <= |c.priority| then k else |c.priority|
  }

  lemma CreatedLater(c: Config, t: nat)
    ensures CreatedBy(c, t + 1) == CreatedBy(c, t) + if t % 10 == 0 && CreatedBy(c, t) < |c.priority| then 1 else 0
  {
  }

  lemma StepCreates(c: Config, s: Sim, e: Event)
    requires Inv(c, s) && Enabled(c, s, e)
    ensures var s' := Apply(c, s, e);
      if e == Next && s.at > c.cpus then
        s'.time == s.time + 1
        && s'.created == s.created + if s.time % 10 == 0 && s.created < |c.priority| then 1 else 0
      else s'.time == s.time && s'.created == s.created
  {
    Lengths(c, s);
    hide Inv, WakeUp, Preempt, Yield, Terminate, Settled, Schedule;
  }

  /** In every run the processes created are fixed by the clock: at tick t, the smaller of all of them and
      t / 10 rounded up. */
  lemma {:induction false} CreatedByTheClock(c: Config, programs: seq<Program>, events: seq<Event>)
    requires ConfigOk(c) && ProgramsOk(c, programs) && Runs(c, Start(c, programs), events)
    ensures var s := After(c, Start(c, programs), events); s.created == CreatedBy(c, s.time)
  {
    if events == [] {
      assert After(c, Start(c, programs), events) == Start(c, programs);
    } else {
      hide Inv, Enabled, Apply, ConfigOk, ProgramsOk, Start, CreatedBy;
      var before := events[..|events| - 1];
      var s := After(c, Start(c, programs), before);
      CreatedByTheClock(c, programs, before);
      RunKeepsInv(c, programs, before);
      StepCreates(c, s, events[|events| - 1]);
      CreatedLater(c, s.time);
    }
  }

  // ---------------------------------------------------------------- the I/O queue

  /** The I/O queue has a turn, and something to do. */
  predicate IoTurn(c: Config, s: Sim, e: Event) {
    e == Next && s.at == c.cpus && s.io != []
  }

  ghost function IoTurns(c: Config, s: Sim, events: seq<Event>): nat
    requires Runs(c, s, events)
  {
    if events == [] then 0
    else
      var before := events[..|events| - 1];
      IoTurns(c, s, before) + if IoTurn(c, After(c, s, before), events[|events| - 1]) then 1 else 0
  }

  /** A turn takes a tick off the head request or, if none is left, the request off the queue. */
  function Served(io: seq<Request>): seq<Request>
    requires io != []
  {
    if io[0].time > 0 then [Request(io[0].pid, io[0].time - 1)] + io[1..] else io[1..]
  }

  lemma StepIo(c: Config, s: Sim, e: Event) returns (more: seq<Request>)
    requires Inv(c, s) && Enabled(c, s, e)
    ensures Apply(c, s, e).io == (if IoTurn(c, s, e) then Served(s.io) else s.io) + more
    ensures more != [] <==>
      (e == Next && s.at < c.cpus && Busy(s.sched, s.at)
       && var ops := Left(s, Current(s.sched, s.at)); |ops| > 1 && ops[0] == 0)
    ensures more != [] ==>
      var r := Current(s.sched, s.at); more == [Request(r, Left(s, r)[1])]
  {
    Lengths(c, s);
    if s.at < c.cpus && Busy(s.sched, s.at) {
      RunningHasBurst(c, s, s.at);
    }
    hide Inv, WakeUp, Preempt, Yield, Terminate, Settled, Schedule;
    more := [];
    if e == Next && s.at < c.cpus && Busy(s.sched, s.at) {
      var r := Current(s.sched, s.at);
      var ops := Left(s, r);
      if |ops| > 1 && ops[0] == 0 {
        more := [Request(r, ops[1])];
      }
    }
    assert s.io + [] == s.io;
    assert s.io != [] ==> Served(s.io) + [] == Served(s.io);
  }

  /** After some turns: the first `k` of the requests have been served, the next has had the rest of the turns,
      and the others are as they were, newcomers behind them. */
  ghost predicate ServedUpTo(io: seq<Request>, now: seq<Request>, turns: nat, k: nat) {
    && k <= |io| && |now| >= |io| - k
    && (forall i :: k <= i < |io| ==> now[i - k].pid == io[i].pid && (i > k ==> now[i - k].time == io[i].time))
    && (k < |io| ==> now[0].time <= io[k].time && turns == IoWork(io[..k]) + io[k].time - now[0].time)
    && (k == |io| ==> turns >= IoWork(io))
  }

  lemma IoWorkNext(io: seq<Request>, k: nat)
    requires k < |io|
    ensures IoWork(io[..k + 1]) == IoWork(io[..k]) + io[k].time + 1
    ensures io[..|io|] == io
  {
    assert io[..k + 1] == io[..k] + [io[k]];
    IoWorkAppend(io[..k], io[k]);
  }

  lemma RequestTicks(io: seq<Request>, now: seq<Request>, turns: nat, k: nat)
    requires ServedUpTo(io, now, turns, k) && k < |io| && now[0].time > 0
    ensures ServedUpTo(io, Served(now), turns + 1, k)
  {
    hide IoWork;
  }

  lemma RequestEnds(io: seq<Request>, now: seq<Request>, turns: nat, k: nat)
    requires ServedUpTo(io, now, turns, k) && k < |io| && now[0].time == 0
    ensures ServedUpTo(io, Served(now), turns + 1, k + 1)
  {
    hide IoWork;
    IoWorkNext(io, k);
  }

  lemma LaterServed(io: seq<Request>, now: seq<Request>, turns: nat)
    requires ServedUpTo(io, now, turns, |io|) && now != []
    ensures ServedUpTo(io, Served(now), turns + 1, |io|)
  {
  }

  lemma ServedTurn(io: seq<Request>, now: seq<Request>, turns: nat, k: nat) returns (k': nat)
    requires ServedUpTo(io, now, turns, k) && k <= |io| && now != []
    ensures k' <= |io| && ServedUpTo(io, Served(now), turns + 1, k')
  {
    hide IoWork, ServedUpTo, Served;
    k' := k;
    if k == |io| {
      LaterServed(io, now, turns);
    } else if now[0].time > 0 {
      RequestTicks(io, now, turns, k);
    } else {
      RequestEnds(io, now, turns, k);
      k' := k + 1;
    }
  }

  lemma ServedJoined(io: seq<Request>, now: seq<Request>, more: seq<Request>, turns: nat, k: nat)
    requires ServedUpTo(io, now, turns, k)
    ensures ServedUpTo(io, now + more, turns, k)
  {
    hide IoWork;
  }

  /** The I/O queue is served in order and in full: request number `i` of the queue is over after as many turns
      of the queue as it and those before it have ticks, and one more for each, and not before. */
  lemma {:induction false} IoInOrder(c: Config, s: Sim, events: seq<Event>) returns (k: nat)
    requires ConfigOk(c) && Inv(c, s) && Runs(c, s, events)
    ensures k <= |s.io| && Inv(c, After(c, s, events))
    ensures ServedUpTo(s.io, After(c, s, events).io, IoTurns(c, s, events), k)
  {
    hide Inv, Enabled, Apply, ConfigOk, ServedUpTo, Served, IoWork, IoTurn;
    if events == [] {
      k := NothingServed(s.io);
    } else {
      var before, e := events[..|events| - 1], events[|events| - 1];
      var t := After(c, s, before);
      k := IoInOrder(c, s, before);
      StepKeepsInv(c, t, e);
      var more := StepIo(c, t, e);
      TurnHasRequest(c, t, e);
      var turns := IoTurns(c, s, before);
      if IoTurn(c, t, e) {
        k := ServedTurn(s.io, t.io, turns, k);
        ServedJoined(s.io, Served(t.io), more, turns + 1, k);
      } else {
        ServedJoined(s.io, t.io, more, turns, k);
      }
    }
  }

  lemma NothingServed(io: seq<Request>) returns (k: nat)
    ensures k <= |io| && ServedUpTo(io, io, 0, k)
  {
    k := 0;
  }

  lemma TurnHasRequest(c: Config, s: Sim, e: Event)
    ensures IoTurn(c, s, e) ==> s.io != []
  {
  }
}
