/** What every handler keeps. */
module SchedInvariant {
  import opened Wrappers
  import opened SchedState

  /** The handler has let go of its process; `current` will be overwritten by `schedule`. */
  function Freed(s: Sched, n: nat): Sched
    requires n < |s.cpus|
  {
    s.(cpus := s.cpus[n := Cpu(None, 0)])
  }

  lemma ScheduleOverwrites(c: Config, s: Sched, n: nat)
    requires n < |s.cpus|
    ensures Schedule(c, Freed(s, n), n) == Schedule(c, s, n)
  {
    assert s.cpus[n := Cpu(None, 0)][n := Cpu(None, c.timeslice)] == s.cpus[n := Cpu(None, c.timeslice)];
    if s.queue != [] {
      var p := s.queue[Pick(c, s.queue)];
      assert s.cpus[n := Cpu(None, 0)][n := Cpu(Some(p), c.timeslice)] == s.cpus[n := Cpu(Some(p), c.timeslice)];
    }
  }

  // ---------------------------------------------------------------- consistency

  /** CPU `n`, idle so far, takes process `k` of the queue. */
  lemma TakeConsistent(c: Config, s: Sched, n: nat, k: nat, t: int)
    requires Consistent(c, s) && n < |s.cpus| && !Busy(s, n) && k < |s.queue|
    ensures var p := s.queue[k];
      Consistent(c, Sched(Without(s.queue, k), SetState(s.state, p, Running), s.cpus[n := Cpu(Some(p), t)]))
  {
    var p := s.queue[k];
    var s' := Sched(Without(s.queue, k), SetState(s.state, p, Running), s.cpus[n := Cpu(Some(p), t)]);
    WithoutElements(s.queue, k);
    assert p in s.queue;
    assert forall m :: Busy(s', m) && m != n ==> Busy(s, m) && Current(s', m) == Current(s, m);
    assert Busy(s', n) && Current(s', n) == p;
    RunningStay(s, s', n);
  }

  /** Who ran on another CPU still does. */
  lemma RunningStay(s: Sched, s': Sched, n: nat)
    requires n < |s.cpus| == |s'.cpus| && forall m :: 0 <= m < |s.cpus| && m != n ==> s'.cpus[m] == s.cpus[m]
    ensures forall p: Pid :: OnSomeCpu(s, p) && !(Busy(s, n) && Current(s, n) == p) ==> OnSomeCpu(s', p)
  {
    forall p: Pid | OnSomeCpu(s, p) && !(Busy(s, n) && Current(s, n) == p) ensures OnSomeCpu(s', p) {
      var m :| Busy(s, m) && Current(s, m) == p;
      assert Busy(s', m) && Current(s', m) == p;
    }
  }

  lemma ScheduleConsistent(c: Config, s: Sched, n: nat)
    requires Consistent(c, s) && n < |s.cpus| && !Busy(s, n)
    ensures Consistent(c, Schedule(c, s, n))
  {
    hide Pick, Highest;
    if s.queue != [] {
      hide Consistent, SetState, Without;
      TakeConsistent(c, s, n, Pick(c, s.queue), c.timeslice);
    } else {
      var s' := Schedule(c, s, n);
      assert forall m :: Busy(s', m) ==> Busy(s, m) && Current(s', m) == Current(s, m);
      RunningStay(s, s', n);
    }
  }

  lemma EnqueueFreed(c: Config, s: Sched, n: nat)
    requires Consistent(c, s) && Busy(s, n)
    ensures Consistent(c, Freed(Enqueue(s, Current(s, n)), n))
  {
    var p := Current(s, n);
    var s' := Freed(Enqueue(s, p), n);
    assert forall m :: Busy(s', m) && m != n ==> Busy(s, m) && Current(s', m) == Current(s, m);
    assert p !in s.queue;
    RunningStay(s, s', n);
  }

  lemma MarkFreed(c: Config, s: Sched, n: nat, v: ProcState)
    requires Consistent(c, s) && Busy(s, n) && v != Ready && v != Running
    ensures Consistent(c, Freed(s.(state := SetState(s.state, Current(s, n), v)), n))
  {
    var s' := Freed(s.(state := SetState(s.state, Current(s, n), v)), n);
    assert forall m :: Busy(s', m) && m != n ==> Busy(s, m) && Current(s', m) == Current(s, m);
    RunningStay(s, s', n);
  }

  lemma PreemptConsistent(c: Config, s: Sched, n: nat)
    requires Consistent(c, s) && Busy(s, n)
    ensures Consistent(c, Preempt(c, s, n))
  {
    EnqueueFreed(c, s, n);
    var s1 := Enqueue(s, Current(s, n));
    ScheduleConsistent(c, Freed(s1, n), n);
    ScheduleOverwrites(c, s1, n);
  }

  lemma YieldConsistent(c: Config, s: Sched, n: nat)
    requires Consistent(c, s) && Busy(s, n)
    ensures Consistent(c, Yield(c, s, n))
  {
    MarkFreed(c, s, n, Waiting);
    var s1 := s.(state := SetState(s.state, Current(s, n), Waiting));
    ScheduleConsistent(c, Freed(s1, n), n);
    ScheduleOverwrites(c, s1, n);
  }

  lemma TerminateConsistent(c: Config, s: Sched, n: nat)
    requires Consistent(c, s) && Busy(s, n)
    ensures Consistent(c, Terminate(c, s, n))
  {
    MarkFreed(c, s, n, Terminated);
    var s1 := s.(state := SetState(s.state, Current(s, n), Terminated));
    ScheduleConsistent(c, Freed(s1, n), n);
    ScheduleOverwrites(c, s1, n);
  }

  lemma EnqueueConsistent(c: Config, s: Sched, p: Pid)
    requires Consistent(c, s) && p < |s.state| && s.state[p] != Ready && s.state[p] != Running
    ensures Consistent(c, Enqueue(s, p))
  {
    var s' := Enqueue(s, p);
    assert forall m :: Busy(s', m) ==> Busy(s, m) && Current(s', m) == Current(s, m);
    assert p !in s.queue;
    forall q: Pid | q < |s.state| && s'.state[q] == Running
      ensures OnSomeCpu(s', q)
    {
      var m :| Busy(s, m) && Current(s, m) == q;
      assert Busy(s', m);
    }
  }

  lemma WakeUpConsistent(c: Config, s: Sched, p: Pid)
    requires Consistent(c, s) && p < |s.state| && s.state[p] != Ready && s.state[p] != Running
    ensures Consistent(c, WakeUp(c, s, p))
  {
    EnqueueConsistent(c, s, p);
    var woken := Enqueue(s, p);
    if WakeUp(c, s, p) != woken {
      PreemptConsistent(c, woken, ScanCpus(c, s.cpus, |s.cpus|).stop.value);
    }
  }

  // ---------------------------------------------------------------- no idle CPU beside a ready process

  /** A handler that frees a CPU leaves no idle CPU beside a ready process. */
  lemma ScheduleSettles(c: Config, s: Sched, n: nat)
    requires n < |s.cpus|
    requires |s.queue| <= 1 || forall m :: 0 <= m < |s.cpus| && m != n ==> Busy(s, m)
    ensures Settled(Schedule(c, s, n))
  {
    var s' := Schedule(c, s, n);
    if s'.queue != [] {
      forall m | 0 <= m < |s.cpus| ensures s'.cpus[m].current.Some? {
        assert m != n ==> Busy(s, m);
      }
    }
  }

  // ---------------------------------------------------------------- priorities

  /** Freeing a CPU keeps the order: it gets a process of maximum priority. */
  lemma ScheduleOrdered(c: Config, s: Sched, n: nat)
    requires n < |s.cpus| && c.byPriority
    requires forall p: Pid, m :: p in s.queue && Busy(s, m) && m != n ==> Prio(c, p) <= Prio(c, Current(s, m))
    ensures Ordered(c, Schedule(c, s, n))
  {
    var s' := Schedule(c, s, n);
    if s.queue != [] {
      HighestIsFirstMaximum(c, s.queue);
      forall p: Pid, m | p in s'.queue && Busy(s', m)
        ensures Prio(c, p) <= Prio(c, Current(s', m))
      {
        assert p in s.queue;
        if m != n {
          assert Busy(s, m);
        }
      }
    }
  }

  /** A preempted process stands above all queued ones, so one of its own priority takes over. */
  lemma PreemptOrdered(c: Config, s: Sched, n: nat)
    requires Busy(s, n) && c.byPriority && Ordered(c, s)
    ensures Ordered(c, Preempt(c, s, n))
  {
    var r := Current(s, n);
    var q := s.queue + [r];
    var s' := Preempt(c, s, n);
    HighestIsFirstMaximum(c, q);
    var k := Highest(c, q);
    assert Prio(c, q[|s.queue|]) <= Prio(c, q[k]);
    forall p: Pid, m | p in s'.queue && Busy(s', m)
      ensures Prio(c, p) <= Prio(c, Current(s', m))
    {
      if m != n {
        assert Busy(s, m);
        if p !in s.queue {
          assert p == r && k < |s.queue| && q[k] in s.queue;
        }
      }
    }
  }

  lemma WakeUpOrdered(c: Config, s: Sched, p: Pid)
    requires ConfigOk(c) && c.byPriority && Settled(s) && Ordered(c, s) && p < |c.priority|
    ensures Settled(WakeUp(c, s, p)) ==> Ordered(c, WakeUp(c, s, p))
  {
    ScanFinds(c, s.cpus, |s.cpus|);
    match ScanCpus(c, s.cpus, |s.cpus|)
    case IdleCpu =>
    case Lows(lows, stop) =>
      if lows < Prio(c, p) {
        ForcePreemptOrdered(c, s, p, stop.value);
      } else {
        assert forall m :: Busy(Enqueue(s, p), m) ==> Busy(s, m);
      }
  }

  /** The woken process displaces the lowest one: it is the only queued process above that one. */
  lemma ForcePreemptOrdered(c: Config, s: Sched, p: Pid, n: nat)
    requires c.byPriority && Ordered(c, s) && Busy(s, n)
    requires forall m :: Busy(s, m) ==> Prio(c, Current(s, n)) <= Prio(c, Current(s, m))
    requires Prio(c, Current(s, n)) < Prio(c, p)
    ensures Busy(Enqueue(s, p), n) && Ordered(c, Preempt(c, Enqueue(s, p), n))
    ensures Current(Preempt(c, Enqueue(s, p), n), n) == p
  {
    var r := Current(s, n);
    var q := s.queue + [p] + [r];
    HighestIsFirstMaximum(c, q);
    var k := Highest(c, q);
    assert q[|s.queue|] == p && q[|s.queue| + 1] == r;
    forall i | 0 <= i < |q| && i != |s.queue| ensures Prio(c, q[i]) < Prio(c, p) {
      if i < |s.queue| {
        assert q[i] in s.queue;
      }
    }
    assert k == |s.queue|;
    var s' := Preempt(c, Enqueue(s, p), n);
    assert s'.queue == s.queue + [r];
    forall y: Pid, m | y in s'.queue && Busy(s', m)
      ensures Prio(c, y) <= Prio(c, Current(s', m))
    {
      if m != n {
        assert Busy(s, m);
      }
    }
  }
}
