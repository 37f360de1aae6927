/** What brought a process where it is, over every interleaving of the handlers. */
module SchedHistory {
  import opened Wrappers
  import opened SchedPlaces

  // ---------------------------------------------------------------- who is being raised on

  /** The event is raised on the CPU that runs `p`. */
  predicate RaisedOn(s: State, e: Event, p: Pid) {
    e.Raise? && e.cpu < |s.cpus| && s.cpus[e.cpu].simCurrent == Some(p)
  }

  lemma RaisedIsOwned(s: State, e: Event, count: nat, p: Pid)
    requires Inv(s, count) && Enabled(s, e) && RaisedOn(s, e, p)
    ensures p !in s.io && p !in s.ended && Count(s.io, p) == 0
  {
    hide Count;
    assert Owned(s.cpus[e.cpu]) == Some(p);
    OwnersCount(s.cpus, e.cpu, e.cpu, p);
    assert Places(s, p) <= 1;
    NotCounted(s.io, p);
    NotCounted(s.ended, p);
  }

  // ---------------------------------------------------------------- ended

  /** A `Terminate` has been raised on a CPU that ran `p`. */
  predicate HasTerminated(s: State, events: seq<Event>, p: Pid)
    requires Runs(s, events)
  {
    events != [] &&
    var before, e := events[..|events| - 1], events[|events| - 1];
    HasTerminated(s, before, p) || (RaisedOn(After(s, before), e, p) && e.kind == Terminate)
  }

  lemma StepEnds(s: State, e: Event, p: Pid)
    requires Enabled(s, e)
    ensures p in Apply(s, e).ended <==> p in s.ended || (RaisedOn(s, e, p) && e.kind == Terminate)
  {
  }

  /** Over every run, the processes ended are those on which a `Terminate` was raised; whoever has ended stays so
      in whatever follows, and no CPU owns it again. */
  lemma {:induction false} EndedIffTerminated(count: nat, cpus: nat, events: seq<Event>, p: Pid)
    requires Runs(Start(count, cpus), events)
    ensures var s := After(Start(count, cpus), events);
      && (p in s.ended <==> HasTerminated(Start(count, cpus), events, p))
      && (p in s.ended ==> forall n :: 0 <= n < |s.cpus| ==> Owned(s.cpus[n]) != Some(p))
  {
    hide Apply, Enabled, RaisedOn, Owned;
    var s := After(Start(count, cpus), events);
    if events != [] {
      var before := events[..|events| - 1];
      EndedIffTerminated(count, cpus, before, p);
      StepEnds(After(Start(count, cpus), before), events[|events| - 1], p);
    }
    forall n | 0 <= n < |s.cpus| && Owned(s.cpus[n]) == Some(p) ensures p !in s.ended {
      NeverTwice(count, cpus, events, n, n);
    }
  }

  lemma {:induction false} EndedForGood(count: nat, cpus: nat, events: seq<Event>, k: nat, p: Pid)
    requires Runs(Start(count, cpus), events) && k <= |events|
    ensures Runs(Start(count, cpus), events[..k])
    ensures p in After(Start(count, cpus), events[..k]).ended ==>
      var s := After(Start(count, cpus), events);
      p in s.ended && forall n :: 0 <= n < |s.cpus| ==> Owned(s.cpus[n]) != Some(p)
  {
    hide Apply, Enabled, RaisedOn, Owned;
    EndedIffTerminated(count, cpus, events, p);
    if k == |events| {
      assert events[..k] == events;
    } else {
      var before := events[..|events| - 1];
      assert before[..k] == events[..k];
      EndedForGood(count, cpus, before, k, p);
      StepEnds(After(Start(count, cpus), before), events[|events| - 1], p);
    }
  }

  // ---------------------------------------------------------------- waiting for I/O

  /** The last event raised on a CPU that ran `p` was a `Yield`, and no `TakeIo` has taken `p` since. */
  predicate HasYielded(s: State, events: seq<Event>, p: Pid)
    requires Runs(s, events)
  {
    events != [] &&
    var before, e := events[..|events| - 1], events[|events| - 1];
    if RaisedOn(After(s, before), e, p) then e.kind == Yield
    else HasYielded(s, before, p) && !(e == TakeIo && After(s, events).waking == Some(p))
  }

  lemma StepIo(s: State, e: Event, count: nat, p: Pid)
    requires Inv(s, count) && Enabled(s, e)
    ensures p in Apply(s, e).io <==>
      if RaisedOn(s, e, p) then e.kind == Yield
      else p in s.io && !(e == TakeIo && Apply(s, e).waking == Some(p))
  {
    if RaisedOn(s, e, p) {
      RaisedIsOwned(s, e, count, p);
    }
    if e == TakeIo {
      AtMostOnce(s, count, p);
      HeadLeaves(s.io, p);
    }
  }

  lemma AtMostOnce(s: State, count: nat, p: Pid)
    requires Inv(s, count)
    ensures Count(s.io, p) <= 1 && Count(s.queue, p) <= 1
  {
    assert Places(s, p) <= 1;
  }

  lemma HeadLeaves(q: seq<Pid>, p: Pid)
    requires q != [] && Count(q, p) <= 1
    ensures p in q[1..] <==> p in q && p != q[0]
  {
    CountTail(q, p);
    NotCounted(q[1..], p);
    assert q == [q[0]] + q[1..];
  }

  /** Over every run, the processes waiting for I/O are those whose last event was a `Yield` and that have not
      been taken since. */
  lemma {:induction false} WaitingIffYielded(count: nat, cpus: nat, events: seq<Event>, p: Pid)
    requires Runs(Start(count, cpus), events)
    ensures p in After(Start(count, cpus), events).io <==> HasYielded(Start(count, cpus), events, p)
  {
    hide Apply, Enabled, RaisedOn, Inv;
    if events != [] {
      var before := events[..|events| - 1];
      WaitingIffYielded(count, cpus, before, p);
      RunKeepsInv(count, cpus, before);
      StepIo(After(Start(count, cpus), before), events[|events| - 1], count, p);
    }
  }

  // ---------------------------------------------------------------- the order of the queues

  function Occurs(events: seq<Event>, e: Event): nat {
    if events == [] then 0 else Occurs(events[..|events| - 1], e) + if events[|events| - 1] == e then 1 else 0
  }

  /** The processes come into being in the order of their numbers, one for each `TakeNew`. */
  lemma {:induction false} BornInOrder(count: nat, cpus: nat, events: seq<Event>)
    requires Runs(Start(count, cpus), events)
    ensures var k := Occurs(events, TakeNew);
      k <= count && After(Start(count, cpus), events).unborn == Processes(count)[k..]
  {
    if events != [] {
      BornInOrder(count, cpus, events[..|events| - 1]);
    }
  }

  lemma StepIoOrder(s: State, e: Event)
    requires Enabled(s, e)
    ensures e == TakeIo ==> s.io != [] && Apply(s, e).io == s.io[1..]
    ensures e != TakeIo ==> s.io <= Apply(s, e).io
  {
  }

  lemma PrefixLoses(io: seq<Pid>, k: nat, now: seq<Pid>)
    requires k < |io| && io[k..] <= now
    ensures io[k + 1..] <= now[1..]
  {
    assert io[k + 1..] == io[k..][1..];
  }

  /** I/O is served in order: after `k` requests have been taken the others are as they were, with newcomers
      behind them. */
  lemma {:induction false} IoInOrder(s: State, events: seq<Event>)
    requires Runs(s, events)
    ensures var k := Occurs(events, TakeIo); k <= |s.io| ==> s.io[k..] <= After(s, events).io
  {
    hide Apply, Enabled;
    if events != [] {
      var before, e := events[..|events| - 1], events[|events| - 1];
      IoInOrder(s, before);
      StepIoOrder(After(s, before), e);
      var k := Occurs(before, TakeIo);
      if e == TakeIo && k < |s.io| {
        PrefixLoses(s.io, k, After(s, before).io);
      }
    }
  }

  ghost predicate Precedes(q: seq<Pid>, x: Pid, y: Pid) {
    exists i, j :: 0 <= i < j < |q| && q[i] == x && q[j] == y
  }

  /** The ready queue grows at its tail only: two processes that stay in it stay in their order. */
  lemma StepKeepsOrder(s: State, e: Event, count: nat, x: Pid, y: Pid)
    requires Inv(s, count) && Enabled(s, e) && Precedes(s.queue, x, y)
    requires x in Apply(s, e).queue && y in Apply(s, e).queue
    ensures Precedes(Apply(s, e).queue, x, y)
  {
    hide Inv, Precedes;
    var q, r := s.queue, Apply(s, e).queue;
    if e.Step? && s.cpus[e.n].pc == ScheduleGet {
      StaysMeansOther(s, count, e.k, x);
      StaysMeansOther(s, count, e.k, y);
      WithoutKeepsOrder(q, e.k, x, y);
    } else {
      assert q <= r;
      LongerKeepsOrder(q, r, x, y);
    }
  }

  lemma WithoutKeepsOrder(q: seq<Pid>, k: nat, x: Pid, y: Pid)
    requires Precedes(q, x, y) && k < |q| && q[k] != x && q[k] != y
    ensures Precedes(Without(q, k), x, y)
  {
    var i, j :| 0 <= i < j < |q| && q[i] == x && q[j] == y;
    var r, i', j' := Without(q, k), if i < k then i else i - 1, if j < k then j else j - 1;
    assert r[i'] == x && r[j'] == y;
  }

  lemma LongerKeepsOrder(q: seq<Pid>, r: seq<Pid>, x: Pid, y: Pid)
    requires Precedes(q, x, y) && q <= r
    ensures Precedes(r, x, y)
  {
    var i, j :| 0 <= i < j < |q| && q[i] == x && q[j] == y;
    assert r[i] == x && r[j] == y;
  }

  lemma StaysMeansOther(s: State, count: nat, k: nat, x: Pid)
    requires Inv(s, count) && k < |s.queue| && x in Without(s.queue, k)
    ensures s.queue[k] != x
  {
    AtMostOnce(s, count, x);
    CountWithout(s.queue, k, x);
    NotCounted(Without(s.queue, k), x);
  }

  predicate Queued(s: State, events: seq<Event>, x: Pid)
    requires Runs(s, events)
  {
    x in After(s, events).queue && (events != [] ==> Queued(s, events[..|events| - 1], x))
  }

  lemma {:induction false} QueueKeepsOrder(s: State, events: seq<Event>, count: nat, x: Pid, y: Pid)
    requires Inv(s, count) && Runs(s, events) && Precedes(s.queue, x, y)
    requires Queued(s, events, x) && Queued(s, events, y)
    ensures Inv(After(s, events), count) && Precedes(After(s, events).queue, x, y)
  {
    hide Inv, Apply, Enabled, Precedes;
    if events != [] {
      var before, e := events[..|events| - 1], events[|events| - 1];
      QueueKeepsOrder(s, before, count, x, y);
      StepKeepsOrder(After(s, before), e, count, x, y);
      SchedPlaces.StepKeepsInv(After(s, before), e, count);
    }
  }

  // ---------------------------------------------------------------- a thread comes to its wait

  /** How many steps a thread is from its RUNNING wait or from `idle`; a thread in `idle` goes round once more. */
  function Distance(pc: Pc): nat {
    match pc
    case InRun => 0
    case AtTop => 1
    case ScheduleSwitch(_) => 2
    case ScheduleSet(_) => 3
    case ScheduleGet => 4
    case IdleWait => 5
    case YieldMark => 5
    case TerminateMark => 5
    case PreemptAdd(_) => 5
    case PreemptMark => 6
  }

  function OwnSteps(events: seq<Event>, n: nat): nat {
    if events == [] then 0
    else
      var e := events[|events| - 1];
      OwnSteps(events[..|events| - 1], n) + if e.Step? && e.n == n then 1 else 0
  }

  lemma StepNearer(s: State, e: Event, n: nat)
    requires Enabled(s, e) && n < |s.cpus| && Distance(s.cpus[n].pc) > 0
    ensures var s' := Apply(s, e);
      && |s'.cpus| == |s.cpus|
      && if !(e.Step? && e.n == n) then s'.cpus[n] == s.cpus[n]
         else if s.cpus[n].pc == AtTop then s'.cpus[n].pc == InRun || s'.cpus[n].pc == IdleWait
         else Distance(s'.cpus[n].pc) == Distance(s.cpus[n].pc) - 1
  {
  }

  /** Whatever the others do in between, a thread comes one step nearer to its wait with each step it takes. */
  lemma {:induction false} ToItsWait(s: State, events: seq<Event>, n: nat)
    requires Runs(s, events) && n < |s.cpus| && OwnSteps(events, n) < Distance(s.cpus[n].pc)
    ensures var s' := After(s, events);
      n < |s'.cpus| && Distance(s'.cpus[n].pc) == Distance(s.cpus[n].pc) - OwnSteps(events, n)
  {
    hide Apply, Enabled, Distance;
    if events != [] {
      var before, e := events[..|events| - 1], events[|events| - 1];
      ToItsWait(s, before, n);
      StepNearer(After(s, before), e, n);
      TopIsNext(After(s, before).cpus[n].pc);
    }
  }

  lemma TopIsNext(pc: Pc)
    ensures Distance(pc) == 1 <==> pc == AtTop
  {
  }

  /** What a thread has taken from the queue it runs, three of its steps later, or is idle with nothing taken. */
  lemma {:induction false} TakenRuns(s: State, events: seq<Event>, n: nat)
    requires Runs(s, events) && n < |s.cpus| && s.cpus[n].pc.ScheduleSet? && OwnSteps(events, n) <= 3
    requires OwnSteps(events, n) == 3 ==> events != [] && OwnSteps(events[..|events| - 1], n) == 2
    ensures var s', x := After(s, events), s.cpus[n].pc.taken;
      && n < |s'.cpus|
      && s'.cpus[n] == match OwnSteps(events, n)
                       case 0 => s.cpus[n]
                       case 1 => s.cpus[n].(pc := ScheduleSwitch(x), current := x)
                       case 2 => Thread(AtTop, x, x)
                       case _ => Thread(if x == None then IdleWait else InRun, x, x)
  {
    if events != [] {
      var before, e := events[..|events| - 1], events[|events| - 1];
      TakenRuns(s, before, n);
      StepNearer(After(s, before), e, n);
    }
  }
}
