/**
  The handlers as the CPU threads run them, one lock at a time: between two steps of a thread any other thread
  may take a step. The supervisor raises an event on a CPU only while that CPU's thread waits in RUNNING.
*/
module SchedPlaces {
  import opened Wrappers
  import SchedState

  type Pid = SchedState.Pid

  /** Where a CPU thread is: at the top of its loop, in its RUNNING wait, in `idle`, in one of the handlers
      before it looks at `current`, before it puts the preempted process back, or in `schedule` before it
      takes from the queue, before it sets `current`, and before `context_switch`. */
  datatype Pc =
    | AtTop | InRun | IdleWait
    | PreemptMark | PreemptAdd(p: Pid) | YieldMark | TerminateMark
    | ScheduleGet | ScheduleSet(taken: Option<Pid>) | ScheduleSwitch(taken: Option<Pid>)

  /** A CPU thread with the scheduler's and the simulator's entry for its CPU. */
  datatype Thread = Thread(pc: Pc, current: Option<Pid>, simCurrent: Option<Pid>)

  /** `waking` is the process the supervisor has taken from the I/O queue or the process table and is about to
      put in the ready queue. */
  datatype State = State(queue: seq<Pid>, cpus: seq<Thread>, io: seq<Pid>, unborn: seq<Pid>, waking: Option<Pid>,
                         ended: seq<Pid>)

  datatype Raised = Preempt | Yield | Terminate

  /** A step of CPU thread `n` (when it takes from the queue, the `k`-th process), an event raised on a CPU, or
      a step of the supervisor. */
  datatype Event = Step(n: nat, k: nat) | Raise(cpu: nat, kind: Raised) | TakeIo | TakeNew | WakeAdd

  function Processes(count: nat): seq<Pid> {
    seq(count, i requires 0 <= i => i)
  }

  function Start(count: nat, cpus: nat): State {
    State([], seq(cpus, _ => Thread(AtTop, None, None)), [], Processes(count), None, [])
  }

  predicate Enabled(s: State, e: Event) {
    match e
    case Step(n, k) =>
      n < |s.cpus| &&
      (match s.cpus[n].pc
       case InRun => false
       case IdleWait => s.queue != []
       case ScheduleGet => s.queue == [] || k < |s.queue|
       case PreemptMark => s.cpus[n].current.Some?
       case YieldMark => s.cpus[n].current.Some?
       case TerminateMark => s.cpus[n].current.Some?
       case _ => true)
    case Raise(n, _) => n < |s.cpus| && s.cpus[n].pc == InRun && s.cpus[n].simCurrent.Some?
    case TakeIo => s.waking == None && s.io != []
    case TakeNew => s.waking == None && s.unborn != []
    case WakeAdd => s.waking.Some?
  }

  function Put(s: State, n: nat, t: Thread): State
    requires n < |s.cpus|
  {
    s.(cpus := s.cpus[n := t])
  }

  function CpuStep(s: State, n: nat, k: nat): State
    requires Enabled(s, Step(n, k))
  {
    var t := s.cpus[n];
    match t.pc
    case AtTop => Put(s, n, t.(pc := if t.simCurrent == None then IdleWait else InRun))
    case InRun => s
    case IdleWait => Put(s, n, t.(pc := ScheduleGet))
    case PreemptMark => Put(s, n, t.(pc := PreemptAdd(t.current.value)))
    case PreemptAdd(p) => Put(s.(queue := s.queue + [p]), n, t.(pc := ScheduleGet))
    case YieldMark => Put(s, n, t.(pc := ScheduleGet))
    case TerminateMark => Put(s, n, t.(pc := ScheduleGet))
    case ScheduleGet =>
      if s.queue == [] then Put(s, n, t.(pc := ScheduleSet(None)))
      else Put(s.(queue := Without(s.queue, k)), n, t.(pc := ScheduleSet(Some(s.queue[k]))))
    case ScheduleSet(x) => Put(s, n, t.(pc := ScheduleSwitch(x), current := x))
    case ScheduleSwitch(x) => Put(s, n, t.(pc := AtTop, simCurrent := x))
  }

  function RaiseOn(s: State, n: nat, kind: Raised): State
    requires Enabled(s, Raise(n, kind))
  {
    var t := s.cpus[n];
    var p := t.simCurrent.value;
    match kind
    case Preempt => Put(s, n, t.(pc := PreemptMark))
    case Yield => Put(s.(io := s.io + [p]), n, t.(pc := YieldMark))
    case Terminate => Put(s.(ended := s.ended + [p]), n, t.(pc := TerminateMark))
  }

  function Apply(s: State, e: Event): State
    requires Enabled(s, e)
  {
    match e
    case Step(n, k) => CpuStep(s, n, k)
    case Raise(n, kind) => RaiseOn(s, n, kind)
    case TakeIo => s.(waking := Some(s.io[0]), io := s.io[1..])
    case TakeNew => s.(waking := Some(s.unborn[0]), unborn := s.unborn[1..])
    case WakeAdd => s.(waking := None, queue := s.queue + [s.waking.value])
  }

  /** A run, each event enabled when its turn comes. */
  predicate Runs(s: State, events: seq<Event>)
    decreases |events|, 0
  {
    events == [] ||
      var before := events[..|events| - 1];
      Runs(s, before) && Enabled(After(s, before), events[|events| - 1])
  }

  function After(s: State, events: seq<Event>): State
    requires Runs(s, events)
    decreases |events|, 1
  {
    if events == [] then s
    else Apply(After(s, events[..|events| - 1]), events[|events| - 1])
  }

  // ---------------------------------------------------------------- who has which process

  /** The process a CPU thread owns: the one it runs, is about to put back, or has taken from the queue. What
      `current` still names while a handler is under way does not count. */
  function Owned(t: Thread): Option<Pid> {
    match t.pc
    case AtTop => t.simCurrent
    case InRun => t.simCurrent
    case PreemptMark => t.current
    case PreemptAdd(p) => Some(p)
    case ScheduleSet(x) => x
    case ScheduleSwitch(x) => x
    case _ => None
  }

  /** How often `p` occurs. */
  function Count(q: seq<Pid>, p: Pid): nat {
    if q == [] then 0 else Count(q[..|q| - 1], p) + if q[|q| - 1] == p then 1 else 0
  }

  function Is(o: Option<Pid>, p: Pid): nat {
    if o == Some(p) then 1 else 0
  }

  /** How many CPUs own `p`. */
  function Owners(cpus: seq<Thread>, p: Pid): nat {
    if cpus == [] then 0 else Owners(cpus[..|cpus| - 1], p) + Is(Owned(cpus[|cpus| - 1]), p)
  }

  /** In how many places `p` is. */
  function Places(s: State, p: Pid): nat {
    Count(s.unborn, p) + Is(s.waking, p) + Count(s.queue, p) + Owners(s.cpus, p) + Count(s.io, p) + Count(s.ended, p)
  }

  /** The scheduler's and the simulator's entry agree while no handler is under way; a handler finds a
      process to work on, the one the simulator ran. */
  predicate ThreadOk(t: Thread) {
    match t.pc
    case AtTop => t.current == t.simCurrent
    case InRun => t.current == t.simCurrent && t.current.Some?
    case PreemptMark => t.current == t.simCurrent && t.current.Some?
    case YieldMark => t.current == t.simCurrent && t.current.Some?
    case TerminateMark => t.current == t.simCurrent && t.current.Some?
    case PreemptAdd(p) => t.current == Some(p)
    case ScheduleSwitch(x) => t.current == x
    case _ => true
  }

  ghost predicate Inv(s: State, count: nat) {
    && (forall n :: 0 <= n < |s.cpus| ==> ThreadOk(s.cpus[n]))
    && (forall p: Pid :: Places(s, p) == if p < count then 1 else 0)
  }

  lemma {:induction false} OwnersPut(cpus: seq<Thread>, n: nat, t: Thread, p: Pid)
    requires n < |cpus|
    ensures Owners(cpus[n := t], p) == Owners(cpus, p) - Is(Owned(cpus[n]), p) + Is(Owned(t), p)
  {
    var last := |cpus| - 1;
    if n < last {
      OwnersPut(cpus[..last], n, t, p);
      assert cpus[n := t][..last] == cpus[..last][n := t];
    } else {
      assert cpus[n := t][..last] == cpus[..last];
    }
  }

  lemma CountAppend(q: seq<Pid>, x: Pid, p: Pid)
    ensures Count(q + [x], p) == Count(q, p) + if x == p then 1 else 0
  {
    assert (q + [x])[..|q|] == q;
  }

  lemma {:induction false} CountWithout(q: seq<Pid>, k: nat, p: Pid)
    requires k < |q|
    ensures Count(Without(q, k), p) == Count(q, p) - if q[k] == p then 1 else 0
  {
    var last := |q| - 1;
    if k < last {
      CountWithout(q[..last], k, p);
      assert Without(q, k)[..last - 1] == Without(q[..last], k);
    } else {
      assert Without(q, k) == q[..last];
    }
  }

  lemma CountTail(q: seq<Pid>, p: Pid)
    requires q != []
    ensures Count(q[1..], p) == Count(q, p) - if q[0] == p then 1 else 0
  {
    CountWithout(q, 0, p);
    assert Without(q, 0) == q[1..];
  }

  lemma CpuStepConserves(s: State, n: nat, k: nat, p: Pid)
    requires Enabled(s, Step(n, k)) && ThreadOk(s.cpus[n])
    ensures Places(CpuStep(s, n, k), p) == Places(s, p)
  {
    hide Count, Owners;
    var s' := CpuStep(s, n, k);
    assert s'.cpus == s.cpus[n := s'.cpus[n]];
    OwnersPut(s.cpus, n, s'.cpus[n], p);
    if s.cpus[n].pc == ScheduleGet && s.queue != [] {
      CountWithout(s.queue, k, p);
    }
    if s.cpus[n].pc.PreemptAdd? {
      CountAppend(s.queue, s.cpus[n].pc.p, p);
    }
  }

  lemma RaiseConserves(s: State, n: nat, kind: Raised, p: Pid)
    requires Enabled(s, Raise(n, kind)) && ThreadOk(s.cpus[n])
    ensures Places(RaiseOn(s, n, kind), p) == Places(s, p)
  {
    hide Count, Owners;
    OwnersPut(s.cpus, n, RaiseOn(s, n, kind).cpus[n], p);
    CountAppend(s.io, s.cpus[n].simCurrent.value, p);
    CountAppend(s.ended, s.cpus[n].simCurrent.value, p);
  }

  lemma StepConserves(s: State, e: Event, p: Pid)
    requires Enabled(s, e) && forall n :: 0 <= n < |s.cpus| ==> ThreadOk(s.cpus[n])
    ensures Places(Apply(s, e), p) == Places(s, p)
  {
    hide Count, Owners;
    match e
    case Step(n, k) => CpuStepConserves(s, n, k, p);
    case Raise(n, kind) => RaiseConserves(s, n, kind, p);
    case TakeIo => CountTail(s.io, p);
    case TakeNew => CountTail(s.unborn, p);
    case WakeAdd => CountAppend(s.queue, s.waking.value, p);
  }

  lemma ThreadsOk(s: State, e: Event)
    requires Enabled(s, e) && forall n :: 0 <= n < |s.cpus| ==> ThreadOk(s.cpus[n])
    ensures forall n :: 0 <= n < |s.cpus| ==> ThreadOk(Apply(s, e).cpus[n])
    ensures |Apply(s, e).cpus| == |s.cpus|
  {
  }

  lemma StepKeepsInv(s: State, e: Event, count: nat)
    requires Inv(s, count) && Enabled(s, e)
    ensures Inv(Apply(s, e), count)
  {
    ThreadsOk(s, e);
    hide Places, ThreadOk;
    forall p: Pid ensures Places(Apply(s, e), p) == Places(s, p) {
      StepConserves(s, e, p);
    }
  }

  lemma {:induction false} NothingOwned(cpus: seq<Thread>, p: Pid)
    requires forall n :: 0 <= n < |cpus| ==> Owned(cpus[n]) == None
    ensures Owners(cpus, p) == 0
  {
    if cpus != [] {
      NothingOwned(cpus[..|cpus| - 1], p);
    }
  }

  lemma {:induction false} ProcessesOnce(count: nat, p: Pid)
    ensures Count(Processes(count), p) == if p < count then 1 else 0
  {
    if count > 0 {
      ProcessesOnce(count - 1, p);
      assert Processes(count) == Processes(count - 1) + [count - 1];
      CountAppend(Processes(count - 1), count - 1, p);
    }
  }

  lemma {:induction false} RunKeepsInv(count: nat, cpus: nat, events: seq<Event>)
    requires Runs(Start(count, cpus), events)
    ensures Inv(After(Start(count, cpus), events), count)
  {
    if events == [] {
      forall p: Pid ensures Places(Start(count, cpus), p) == if p < count then 1 else 0 {
        NothingOwned(Start(count, cpus).cpus, p);
        ProcessesOnce(count, p);
      }
    } else {
      var before := events[..|events| - 1];
      RunKeepsInv(count, cpus, before);
      StepKeepsInv(After(Start(count, cpus), before), events[|events| - 1], count);
    }
  }

  // ---------------------------------------------------------------- the results

  /** However the threads interleave, every process is in exactly one place, once: not yet created, being
      woken, in the ready queue, owned by a CPU, waiting for I/O, or ended. */
  lemma {:induction false} OnePlace(count: nat, cpus: nat, events: seq<Event>, p: Pid)
    requires Runs(Start(count, cpus), events) && p < count
    ensures var s := After(Start(count, cpus), events);
      Count(s.unborn, p) + Is(s.waking, p) + Count(s.queue, p) + Owners(s.cpus, p) + Count(s.io, p)
        + Count(s.ended, p) == 1
  {
    RunKeepsInv(count, cpus, events);
    assert Places(After(Start(count, cpus), events), p) == 1;
  }

  lemma {:induction false} OwnersCount(cpus: seq<Thread>, m: nat, n: nat, p: Pid)
    requires m < |cpus| && n < |cpus| && Owned(cpus[m]) == Some(p) == Owned(cpus[n])
    ensures Owners(cpus, p) >= if m == n then 1 else 2
  {
    var last := |cpus| - 1;
    if m < last && n < last {
      OwnersCount(cpus[..last], m, n, p);
    } else if m < last {
      OwnersCount(cpus[..last], m, m, p);
    } else if n < last {
      OwnersCount(cpus[..last], n, n, p);
    }
  }

  lemma {:induction false} NotCounted(q: seq<Pid>, p: Pid)
    ensures Count(q, p) == 0 <==> p !in q
  {
    if q != [] {
      NotCounted(q[..|q| - 1], p);
      assert q == q[..|q| - 1] + [q[|q| - 1]];
    }
  }

  /** No process is dispatched twice: two CPUs never own the same one, and a CPU never owns one that is also
      in the ready queue, waiting for I/O, ended, being woken or not yet created. */
  lemma {:induction false} NeverTwice(count: nat, cpus: nat, events: seq<Event>, m: nat, n: nat)
    requires Runs(Start(count, cpus), events)
    requires var s := After(Start(count, cpus), events); m < |s.cpus| && n < |s.cpus| && Owned(s.cpus[m]).Some?
    ensures var s := After(Start(count, cpus), events);
      var p := Owned(s.cpus[m]).value;
      && (m != n ==> Owned(s.cpus[n]) != Some(p))
      && p !in s.queue && p !in s.io && p !in s.ended && p !in s.unborn && s.waking != Some(p)
  {
    var s := After(Start(count, cpus), events);
    var p := Owned(s.cpus[m]).value;
    RunKeepsInv(count, cpus, events);
    OwnersCount(s.cpus, m, m, p);
    assert Places(s, p) <= 1;
    NotCounted(s.queue, p);
    NotCounted(s.io, p);
    NotCounted(s.ended, p);
    NotCounted(s.unborn, p);
    if m != n && Owned(s.cpus[n]) == Some(p) {
      OwnersCount(s.cpus, m, n, p);
    }
  }

  /** A handler always finds the process that the simulator ran, and no thread is ever stuck but in the two
      waits: RUNNING, and `idle` with nothing ready. */
  lemma {:induction false} HandlersFindTheirProcess(count: nat, cpus: nat, events: seq<Event>, n: nat)
    requires Runs(Start(count, cpus), events) && n < |After(Start(count, cpus), events).cpus|
    ensures var s := After(Start(count, cpus), events);
      && (s.cpus[n].pc in {PreemptMark, YieldMark, TerminateMark} ==>
           s.cpus[n].current.Some? && s.cpus[n].current == s.cpus[n].simCurrent)
      && (Enabled(s, Step(n, 0)) <==> s.cpus[n].pc != InRun && (s.cpus[n].pc == IdleWait ==> s.queue != []))
  {
    RunKeepsInv(count, cpus, events);
    assert ThreadOk(After(Start(count, cpus), events).cpus[n]);
  }

  // ---------------------------------------------------------------- a process queued and still named

  /** One process on one CPU: created, dispatched, preempted, and put back. */
  function Requeue(): seq<Event> {
    var step := Step(0, 0);
    [TakeNew, WakeAdd, step, step, step, step, step, step, Raise(0, Preempt), step, step]
  }

  /** The process is born and the one CPU is at `pc`. */
  function OneCpu(queue: seq<Pid>, pc: Pc, current: Option<Pid>, simCurrent: Option<Pid>): State {
    State(queue, [Thread(pc, current, simCurrent)], [], [], None, [])
  }

  lemma Extend(run: seq<Event>, s: State, e: Event, t: State) returns (extended: seq<Event>)
    requires Runs(Start(1, 1), run) && After(Start(1, 1), run) == s && Enabled(s, e) && Apply(s, e) == t
    ensures extended == run + [e] && Runs(Start(1, 1), extended) && After(Start(1, 1), extended) == t
  {
    extended := run + [e];
    assert extended[..|run|] == run;
  }

  lemma Born() returns (run: seq<Event>)
    ensures run == Requeue()[..2] && Runs(Start(1, 1), run)
    ensures After(Start(1, 1), run) == OneCpu([0], AtTop, None, None)
  {
    var s := Start(1, 1);
    assert s.unborn == [0] && s.cpus == [Thread(AtTop, None, None)];
    var t := s.(unborn := [], waking := Some(0));
    run := Extend([], s, TakeNew, t);
    run := Extend(run, t, WakeAdd, OneCpu([0], AtTop, None, None));
  }

  lemma Taken() returns (run: seq<Event>)
    ensures run == Requeue()[..5] && Runs(Start(1, 1), run)
    ensures After(Start(1, 1), run) == OneCpu([], ScheduleSet(Some(0)), None, None)
  {
    hide Runs, After;
    run := Born();
    run := Extend(run, OneCpu([0], AtTop, None, None), Step(0, 0), OneCpu([0], IdleWait, None, None));
    run := Extend(run, OneCpu([0], IdleWait, None, None), Step(0, 0), OneCpu([0], ScheduleGet, None, None));
    assert Without([0], 0) == [];
    run := Extend(run, OneCpu([0], ScheduleGet, None, None), Step(0, 0), OneCpu([], ScheduleSet(Some(0)), None, None));
  }

  lemma Dispatched() returns (run: seq<Event>)
    ensures run == Requeue()[..8] && Runs(Start(1, 1), run)
    ensures After(Start(1, 1), run) == OneCpu([], InRun, Some(0), Some(0))
  {
    hide Runs, After;
    var p := Some(0);
    run := Taken();
    run := Extend(run, OneCpu([], ScheduleSet(p), None, None), Step(0, 0), OneCpu([], ScheduleSwitch(p), p, None));
    run := Extend(run, OneCpu([], ScheduleSwitch(p), p, None), Step(0, 0), OneCpu([], AtTop, p, p));
    run := Extend(run, OneCpu([], AtTop, p, p), Step(0, 0), OneCpu([], InRun, p, p));
  }

  /** A reachable state in which `preempt` has put its process back and `current` still names it: the process
      is in the queue once, and no CPU owns it. */
  lemma RequeuedStillNamed()
    ensures Runs(Start(1, 1), Requeue())
    ensures var s := After(Start(1, 1), Requeue());
      s.queue == [0] && s.cpus[0].current == Some(0) && Owned(s.cpus[0]) == None
  {
    hide Runs, After;
    var p := Some(0);
    var run := Dispatched();
    run := Extend(run, OneCpu([], InRun, p, p), Raise(0, Preempt), OneCpu([], PreemptMark, p, p));
    run := Extend(run, OneCpu([], PreemptMark, p, p), Step(0, 0), OneCpu([], PreemptAdd(0), p, p));
    run := Extend(run, OneCpu([], PreemptAdd(0), p, p), Step(0, 0), OneCpu([0], ScheduleGet, p, p));
    assert run == Requeue();
  }
}
