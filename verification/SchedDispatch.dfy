/** Who is dispatched, who is displaced and who waits: what each step does to the queue and to the CPUs. */
module SchedDispatch {
  import opened Wrappers
  import opened SchedState
  import opened SchedSim
  import opened SchedSimInvariant

  // ---------------------------------------------------------------- the next in the queue

  /** Place `k` is the next to be dispatched: the first in the queue or, with static priorities, the first of
      maximum priority. */
  ghost predicate NextAt(c: Config, q: seq<Pid>, k: nat) {
    k < |q| &&
    if c.byPriority then
      && (forall i :: 0 <= i < |q| ==> Prio(c, q[i]) <= Prio(c, q[k]))
      && (forall i :: 0 <= i < k ==> Prio(c, q[i]) < Prio(c, q[k]))
    else k == 0
  }

  /** `s` has taken place `k` of queue `q` and put it on CPU `n` with a full slice. */
  ghost predicate Takes(c: Config, q: seq<Pid>, cpus: seq<Cpu>, s: Sched, n: nat, k: nat)
    requires n < |cpus|
  {
    NextAt(c, q, k) && s.queue == q[..k] + q[k + 1..] && s.cpus == cpus[n := Cpu(Some(q[k]), c.timeslice)]
  }

  /** CPU `n` has got the next of queue `q`, or is idle because nothing is ready. */
  ghost predicate Dispatched(c: Config, q: seq<Pid>, cpus: seq<Cpu>, s: Sched, n: nat)
    requires n < |cpus|
  {
    if q == [] then s.queue == [] && s.cpus == cpus[n := Cpu(None, c.timeslice)]
    else exists k: nat :: Takes(c, q, cpus, s, n, k)
  }

  lemma ScheduleLaw(c: Config, s: Sched, n: nat)
    requires n < |s.cpus|
    ensures Dispatched(c, s.queue, s.cpus, Schedule(c, s, n), n)
  {
    if s.queue != [] {
      HighestIsFirstMaximum(c, s.queue);
      assert Takes(c, s.queue, s.cpus, Schedule(c, s, n), n, Pick(c, s.queue));
    }
  }

  // ---------------------------------------------------------------- waking

  /** CPU `n` is the first that runs a process of the lowest priority on any CPU. */
  ghost predicate FirstLowest(c: Config, s: Sched, n: nat) {
    && Busy(s, n)
    && (forall m :: Busy(s, m) ==> Prio(c, Current(s, n)) <= Prio(c, Current(s, m)))
    && (forall m :: 0 <= m < n && Busy(s, m) ==> Prio(c, Current(s, n)) < Prio(c, Current(s, m)))
  }

  /** Static priorities, every CPU busy, and some process running below `p`. */
  ghost predicate Displaces(c: Config, s: Sched, p: Pid) {
    && c.byPriority && (forall n :: 0 <= n < |s.cpus| ==> Busy(s, n))
    && exists n :: Busy(s, n) && Prio(c, Current(s, n)) < Prio(c, p)
  }

  lemma DisplacesFound(c: Config, s: Sched, p: Pid)
    requires ConfigOk(c) && c.byPriority && p < |c.priority|
    ensures var r := ScanCpus(c, s.cpus, |s.cpus|);
      && (Displaces(c, s, p) <==> r.Lows? && r.lows < Prio(c, p))
      && (Displaces(c, s, p) ==> r.stop.Some? && FirstLowest(c, s, r.stop.value))
  {
    ScanFinds(c, s.cpus, |s.cpus|);
    var r := ScanCpus(c, s.cpus, |s.cpus|);
    if r.Lows? && r.lows < Prio(c, p) {
      assert Busy(s, r.stop.value);
    }
    if Displaces(c, s, p) {
      forall n | 0 <= n < |s.cpus| ensures s.cpus[n].current.Some? {
        assert Busy(s, n);
      }
      var n :| Busy(s, n) && Prio(c, Current(s, n)) < Prio(c, p);
      assert r.lows <= Prio(c, s.cpus[n].current.value);
    }
  }

  /** CPU `n` has got `p` with a full slice, and the process that ran there is last in the queue. */
  ghost predicate Swapped(c: Config, s: Sched, s': Sched, n: nat, p: Pid)
    requires Busy(s, n)
  {
    s'.cpus == s.cpus[n := Cpu(Some(p), c.timeslice)] && s'.queue == s.queue + [Current(s, n)]
  }

  /** A wake-up changes the CPUs exactly when every one of them is busy and some process runs below the woken
      one. Then the first CPU at the lowest priority, and no other, gets the woken process, and the one that
      ran there is last in the queue; otherwise the woken one is. */
  lemma WakeUpLaw(c: Config, s: Sched, p: Pid)
    requires ConfigOk(c) && Consistent(c, s) && (c.byPriority && Settled(s) ==> Ordered(c, s))
    requires p < |s.state| && s.state[p] != Ready && s.state[p] != Running
    ensures var s' := WakeUp(c, s, p);
      && (s'.cpus != s.cpus <==> Displaces(c, s, p))
      && (!Displaces(c, s, p) ==> s'.queue == s.queue + [p])
      && (Displaces(c, s, p) ==> exists n: nat :: FirstLowest(c, s, n) && Busy(s, n) && Swapped(c, s, s', n, p))
  {
    if c.byPriority {
      DisplacesFound(c, s, p);
      if Displaces(c, s, p) {
        AllBusySettles(s);
        Displaced(c, s, p, ScanCpus(c, s.cpus, |s.cpus|).stop.value);
      }
    }
  }

  lemma AllBusySettles(s: Sched)
    requires forall n :: 0 <= n < |s.cpus| ==> Busy(s, n)
    ensures Settled(s)
  {
    forall n | 0 <= n < |s.cpus| ensures s.cpus[n].current.Some? {
      assert Busy(s, n);
    }
  }

  lemma Displaced(c: Config, s: Sched, p: Pid, n: nat)
    requires Consistent(c, s) && Ordered(c, s) && Displaces(c, s, p) && FirstLowest(c, s, n)
    requires p < |s.state| && s.state[p] != Running
    ensures var s' := Preempt(c, Enqueue(s, p), n);
      Swapped(c, s, s', n, p) && s'.cpus != s.cpus
  {
    var r := Current(s, n);
    assert Prio(c, r) < Prio(c, p);
    var q := s.queue + [p] + [r];
    HighestIsFirstMaximum(c, q);
    var k := Highest(c, q);
    assert q[|s.queue|] == p && q[|s.queue| + 1] == r;
    forall i | 0 <= i < |q| && i != |s.queue| ensures Prio(c, q[i]) < Prio(c, p) {
      if i < |s.queue| {
        assert q[i] in s.queue;
      }
    }
    assert k == |s.queue|;
    assert Without(q, k) == s.queue + [r];
  }

  /** The process that a part of a tick wakes: the one whose I/O is over, or a new one every tenth tick. */
  function Woken(c: Config, s: Sim): Option<Pid> {
    if s.at == c.cpus && s.io != [] && s.io[0].time == 0 then Some(s.io[0].pid)
    else if s.at > c.cpus && s.time % 10 == 0 && s.created < |c.priority| then Some(s.created)
    else None
  }

  lemma WokenWasAway(c: Config, s: Sim)
    requires Inv(c, s) && Woken(c, s).Some?
    ensures var p := Woken(c, s).value;
      p < |s.sched.state| && s.sched.state[p] != Ready && s.sched.state[p] != Running
  {
    if s.at == c.cpus {
      assert InIo(s.io, s.io[0].pid);
    }
  }

  // ---------------------------------------------------------------- one step

  /** A CPU's turn: its process goes on, or its slice is over and it queues up again, or its burst is over; in
      the last two cases the CPU gets the next in the queue. */
  lemma TurnLaw(c: Config, s: Sim)
    requires Inv(c, s) && Enabled(c, s, Next) && s.at < c.cpus && Busy(s.sched, s.at)
    ensures var n, q, s' := s.at, s.sched.queue, Advance(c, s).sched;
      var r, t := Current(s.sched, n), s.sched.cpus[n].timer;
      && Left(s, r) != []
      && if Left(s, r)[0] == 0 then Dispatched(c, q, s.sched.cpus, s', n)
         else if t == 1 then Dispatched(c, q + [r], s.sched.cpus, s', n)
         else s'.queue == q && s'.cpus == s.sched.cpus[n := Cpu(Some(r), t - 1)]
  {
    var n := s.at;
    RunningHasBurst(c, s, n);
    Lengths(c, s);
    var r := Current(s.sched, n);
    var sched := s.sched;
    hide Schedule, Inv, Dispatched, Settled;
    if Left(s, r)[0] == 0 {
      ScheduleLaw(c, sched.(state := SetState(sched.state, r, Waiting)), n);
      ScheduleLaw(c, sched.(state := SetState(sched.state, r, Terminated)), n);
    } else if sched.cpus[n].timer == 1 {
      TickedPreempt(c, sched, n);
      ScheduleLaw(c, Enqueue(sched, r), n);
    }
  }

  lemma IdleTurnLaw(c: Config, s: Sim)
    requires Inv(c, s) && Enabled(c, s, Next) && s.at < c.cpus && !Busy(s.sched, s.at)
    ensures Advance(c, s).sched == s.sched
  {
    Lengths(c, s);
  }

  /** The I/O queue's part of a tick, and process creation. */
  lemma WakingLaw(c: Config, s: Sim)
    requires Inv(c, s) && Enabled(c, s, Next) && s.at >= c.cpus
    ensures Advance(c, s).sched == match Woken(c, s)
                                   case None => s.sched
                                   case Some(p) => WakeUp(c, s.sched, p)
  {
    Lengths(c, s);
    AtBounded(c, s);
    hide Inv, WakeUp;
  }

  /** A process is on CPU `n` before and after. */
  ghost predicate Stays(s: Sched, s': Sched, n: nat)
    requires Busy(s, n)
  {
    Busy(s', n) && Current(s', n) == Current(s, n)
  }

  /** The slice ends within the burst, and a ready process goes before it. */
  ghost predicate Outslotted(c: Config, s: Sim, n: nat)
    requires Busy(s.sched, n)
  {
    s.sched.cpus[n].timer == 1 &&
    exists x :: x in s.sched.queue && (c.byPriority ==> Prio(c, x) >= Prio(c, Current(s.sched, n)))
  }

  /** A step takes the process off CPU `n` exactly if its burst is over, or its slice is and another that is
      ready goes before it, or a process is woken and displaces it; the first two in its turn only. */
  lemma LeavesIff(c: Config, s: Sim, e: Event, n: nat)
    requires ConfigOk(c) && Inv(c, s) && Enabled(c, s, e) && Busy(s.sched, n)
    ensures var r := Current(s.sched, n);
      && Left(s, r) != []
      && (!Stays(s.sched, Apply(c, s, e).sched, n) <==>
           e == Next
           && ((s.at == n && (Left(s, r)[0] == 0 || Outslotted(c, s, n)))
               || (Woken(c, s).Some? && Displaces(c, s.sched, Woken(c, s).value) && FirstLowest(c, s.sched, n))))
  {
    RunningHasBurst(c, s, n);
    Lengths(c, s);
    AtBounded(c, s);
    hide Inv, Apply, Settled;
    match e
    case Dispatch(m) => DispatchStays(c, s, m, n);
    case Next =>
      NextIsAdvance(c, s);
      if s.at < c.cpus {
        if !Busy(s.sched, s.at) {
          IdleTurnLaw(c, s);
        } else if s.at == n {
          OwnTurn(c, s);
        } else {
          TurnLaw(c, s);
          OthersStay(c, s, n);
        }
      } else {
        WakingLeaves(c, s, n);
      }
  }

  lemma NextIsAdvance(c: Config, s: Sim)
    requires Enabled(c, s, Next)
    ensures Apply(c, s, Next) == Advance(c, s) && Settled(s.sched)
  {
  }

  lemma DispatchStays(c: Config, s: Sim, m: nat, n: nat)
    requires Enabled(c, s, Dispatch(m)) && Busy(s.sched, n)
    ensures Stays(s.sched, Apply(c, s, Dispatch(m)).sched, n)
  {
  }

  lemma OthersStay(c: Config, s: Sim, n: nat)
    requires Inv(c, s) && Enabled(c, s, Next) && s.at < c.cpus && Busy(s.sched, s.at) && s.at != n && Busy(s.sched, n)
    ensures Stays(s.sched, Advance(c, s).sched, n)
  {
    hide Inv, Settled, NextAt;
    Lengths(c, s);
    TurnLaw(c, s);
  }

  lemma OwnTurn(c: Config, s: Sim)
    requires Inv(c, s) && Enabled(c, s, Next) && s.at < c.cpus && Busy(s.sched, s.at)
    ensures var n := s.at;
      var r := Current(s.sched, n);
      Left(s, r) != [] && (!Stays(s.sched, Advance(c, s).sched, n) <==> Left(s, r)[0] == 0 || Outslotted(c, s, n))
  {
    var n := s.at;
    var r, q := Current(s.sched, n), s.sched.queue;
    TurnLaw(c, s);
    Lengths(c, s);
    RunnerNotQueued(c, s, n);
    if c.byPriority {
      SettledIsOrdered(c, s);
    }
    hide Inv, Settled, Advance, Enabled;
    var s' := Advance(c, s).sched;
    if Left(s, r)[0] == 0 {
      NotNext(c, q, s.sched.cpus, s', n, r);
    } else if s.sched.cpus[n].timer == 1 {
      NextAfterRequeue(c, q, s.sched.cpus, s', n, r);
    }
  }

  lemma RunnerNotQueued(c: Config, s: Sim, n: nat)
    requires Inv(c, s) && Busy(s.sched, n)
    ensures Current(s.sched, n) !in s.sched.queue
  {
  }

  lemma NotNext(c: Config, q: seq<Pid>, cpus: seq<Cpu>, s: Sched, n: nat, r: Pid)
    requires n < |cpus| && Dispatched(c, q, cpus, s, n) && r !in q
    ensures !(Busy(s, n) && Current(s, n) == r)
  {
    if q != [] {
      var k: nat :| Takes(c, q, cpus, s, n, k);
      assert q[k] in q;
    }
  }

  /** Behind the others a process is next exactly when it comes before all of them. */
  lemma NextAfterRequeue(c: Config, q: seq<Pid>, cpus: seq<Cpu>, s: Sched, n: nat, r: Pid)
    requires n < |cpus| && Dispatched(c, q + [r], cpus, s, n) && r !in q
    requires c.byPriority ==> forall x :: x in q ==> Prio(c, x) <= Prio(c, r)
    ensures Busy(s, n)
    ensures Current(s, n) != r <==> exists x :: x in q && (c.byPriority ==> Prio(c, x) >= Prio(c, r))
  {
    var big := q + [r];
    var k: nat :| Takes(c, big, cpus, s, n, k);
    assert big[|q|] == r;
    if k < |q| {
      assert big[k] == q[k] && q[k] in q;
    } else {
      assert forall i :: 0 <= i < |q| ==> big[i] == q[i];
    }
  }

  lemma WakingLeaves(c: Config, s: Sim, n: nat)
    requires ConfigOk(c) && Inv(c, s) && Enabled(c, s, Next) && s.at >= c.cpus && Busy(s.sched, n)
    ensures !Stays(s.sched, Advance(c, s).sched, n) <==>
      Woken(c, s).Some? && Displaces(c, s.sched, Woken(c, s).value) && FirstLowest(c, s.sched, n)
  {
    hide Inv, Enabled, Advance, WakeUp, Settled, Consistent, Ordered, Displaces, FirstLowest, Woken;
    WakingLaw(c, s);
    if Woken(c, s).Some? {
      var p := Woken(c, s).value;
      WokenWasAway(c, s);
      SchedOkOf(c, s);
      WakeUpLaw(c, s.sched, p);
      RunnerIsRunning(c, s, n);
      if Displaces(c, s.sched, p) {
        var s' := WakeUp(c, s.sched, p);
        var m: nat :| FirstLowest(c, s.sched, m) && Busy(s.sched, m) && Swapped(c, s.sched, s', m, p);
        OneFirstLowest(c, s.sched, m, n);
      }
    }
  }

  lemma RunnerIsRunning(c: Config, s: Sim, n: nat)
    requires Inv(c, s) && Busy(s.sched, n)
    ensures Current(s.sched, n) < |s.sched.state| && s.sched.state[Current(s.sched, n)] == Running
  {
  }

  lemma OneFirstLowest(c: Config, s: Sched, m: nat, n: nat)
    requires FirstLowest(c, s, m) && Busy(s, n)
    ensures m < |s.cpus| && (FirstLowest(c, s, n) <==> m == n)
  {
  }
}
