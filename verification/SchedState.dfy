/** The scheduler: ready queue, process states and CPUs, with each handler as a function of them. */
module SchedState {
  import opened Wrappers

  type Pid = nat

  datatype ProcState = New | Ready | Running | Waiting | Terminated

  /** The number of CPUs, the time slice (not positive for none), whether scheduling is by static priority,
      and the priorities. */
  datatype Config = Config(cpus: nat, timeslice: int, byPriority: bool, priority: seq<nat>)

  datatype Cpu = Cpu(current: Option<Pid>, timer: int)

  datatype Sched = Sched(queue: seq<Pid>, state: seq<ProcState>, cpus: seq<Cpu>)

  /** Where they are read, priorities range over 1..10; process numbers are the positions in the table. */
  ghost predicate ConfigOk(c: Config) {
    0 < c.cpus && (c.byPriority ==> forall p :: 0 <= p < |c.priority| ==> 1 <= c.priority[p] <= 10)
  }

  function Prio(c: Config, p: Pid): nat {
    if p < |c.priority| then c.priority[p] else 0
  }

  function SetState(state: seq<ProcState>, p: Pid, v: ProcState): seq<ProcState> {
    if p < |state| then state[p := v] else state
  }

  predicate Busy(s: Sched, n: int) {
    0 <= n < |s.cpus| && s.cpus[n].current.Some?
  }

  /** The process CPU `n` runs. */
  function Current(s: Sched, n: int): Pid
    requires Busy(s, n)
  {
    s.cpus[n].current.value
  }

  /** Nothing created, every CPU idle. */
  function StartSched(c: Config): Sched {
    Sched([], seq(|c.priority|, _ => New), seq(c.cpus, _ => Cpu(None, -1)))
  }

  // ---------------------------------------------------------------- choosing from the queue

  /** The first process of maximum priority. */
  function Highest(c: Config, q: seq<Pid>): (k: nat)
    requires q != []
    ensures k < |q|
  {
    if |q| == 1 then 0
    else
      var k := Highest(c, q[..|q| - 1]);
      if Prio(c, q[|q| - 1]) > Prio(c, q[k]) then |q| - 1 else k
  }

  lemma {:induction false} HighestIsFirstMaximum(c: Config, q: seq<Pid>)
    requires q != []
    ensures forall i :: 0 <= i < |q| ==> Prio(c, q[i]) <= Prio(c, q[Highest(c, q)])
    ensures forall i :: 0 <= i < Highest(c, q) ==> Prio(c, q[i]) < Prio(c, q[Highest(c, q)])
  {
    if |q| > 1 {
      var r := q[..|q| - 1];
      HighestIsFirstMaximum(c, r);
      assert forall i :: 0 <= i < |r| ==> q[i] == r[i];
    }
  }

  /** The place in the queue that `schedule` takes a process from. */
  function Pick(c: Config, q: seq<Pid>): (k: nat)
    requires q != []
    ensures k < |q|
  {
    if c.byPriority then Highest(c, q) else 0
  }

  // ---------------------------------------------------------------- handlers

  function Enqueue(s: Sched, p: Pid): Sched {
    s.(queue := s.queue + [p], state := SetState(s.state, p, Ready))
  }

  function Schedule(c: Config, s: Sched, n: nat): Sched
    requires n < |s.cpus|
  {
    if s.queue == [] then s.(cpus := s.cpus[n := Cpu(None, c.timeslice)])
    else
      var k := Pick(c, s.queue);
      var p := s.queue[k];
      Sched(Without(s.queue, k), SetState(s.state, p, Running), s.cpus[n := Cpu(Some(p), c.timeslice)])
  }

  function Preempt(c: Config, s: Sched, n: nat): Sched
    requires Busy(s, n)
  {
    Schedule(c, Enqueue(s, Current(s, n)), n)
  }

  function Yield(c: Config, s: Sched, n: nat): Sched
    requires Busy(s, n)
  {
    Schedule(c, s.(state := SetState(s.state, Current(s, n), Waiting)), n)
  }

  function Terminate(c: Config, s: Sched, n: nat): Sched
    requires Busy(s, n)
  {
    Schedule(c, s.(state := SetState(s.state, Current(s, n), Terminated)), n)
  }

  /** What `wake_up` finds among the first `k` CPUs: an idle one, or the lowest priority below 10 and the
      first CPU that runs it. */
  datatype Scan = IdleCpu | Lows(lows: nat, stop: Option<nat>)

  function ScanCpus(c: Config, cpus: seq<Cpu>, k: nat): Scan
    requires k <= |cpus|
  {
    if k == 0 then Lows(10, None)
    else
      match ScanCpus(c, cpus, k - 1)
      case IdleCpu => IdleCpu
      case Lows(lows, stop) =>
        match cpus[k - 1].current
        case None => IdleCpu
        case Some(p) => if Prio(c, p) < lows then Lows(Prio(c, p), Some(k - 1)) else Lows(lows, stop)
  }

  lemma {:induction false} ScanFinds(c: Config, cpus: seq<Cpu>, k: nat)
    requires k <= |cpus|
    ensures var r := ScanCpus(c, cpus, k);
      && (r.IdleCpu? <==> exists i :: 0 <= i < k && cpus[i].current.None?)
      && (r.Lows? ==>
           && r.lows <= 10 && (r.stop.None? <==> r.lows == 10)
           && (forall i :: 0 <= i < k ==> r.lows <= Prio(c, cpus[i].current.value))
           && (r.stop.Some? ==>
                && r.stop.value < k && Prio(c, cpus[r.stop.value].current.value) == r.lows
                && forall i :: 0 <= i < r.stop.value ==> r.lows < Prio(c, cpus[i].current.value)))
  {
    if k > 0 {
      ScanFinds(c, cpus, k - 1);
    }
  }

  function WakeUp(c: Config, s: Sched, p: Pid): Sched {
    var woken := Enqueue(s, p);
    if !c.byPriority then woken
    else
      match ScanCpus(c, s.cpus, |s.cpus|)
      case IdleCpu => woken
      case Lows(lows, stop) =>
        if lows < Prio(c, p) && stop.Some? && Busy(woken, stop.value) then Preempt(c, woken, stop.value) else woken
  }

  function Idle(c: Config, s: Sched, n: nat): Sched
    requires n < |s.cpus| && !Busy(s, n) && s.queue != []
  {
    Schedule(c, s, n)
  }

  // ---------------------------------------------------------------- one place per process

  /** Every CPU is busy or nothing is ready: no idle CPU is about to dispatch. */
  ghost predicate Settled(s: Sched) {
    s.queue == [] || forall n :: 0 <= n < |s.cpus| ==> s.cpus[n].current.Some?
  }

  /** The READY processes are the queued ones, each once; the RUNNING ones are those on a CPU, each on one. */
  ghost predicate Consistent(c: Config, s: Sched) {
    && |s.cpus| == c.cpus && |s.state| == |c.priority|
    && Distinct(s.queue)
    && (forall p: Pid :: p in s.queue <==> p < |s.state| && s.state[p] == Ready)
    && (forall n :: Busy(s, n) ==> Current(s, n) < |s.state| && s.state[Current(s, n)] == Running)
    && (forall m, n :: Busy(s, m) && Busy(s, n) && m != n ==> Current(s, m) != Current(s, n))
    && (forall p: Pid :: p < |s.state| && s.state[p] == Running ==> OnSomeCpu(s, p))
  }

  ghost predicate OnSomeCpu(s: Sched, p: Pid) {
    exists n :: Busy(s, n) && Current(s, n) == p
  }

  /** In static priority mode no ready process has higher priority than any running one. */
  ghost predicate Ordered(c: Config, s: Sched) {
    forall p: Pid, n :: p in s.queue && Busy(s, n) ==> Prio(c, p) <= Prio(c, Current(s, n))
  }
}
