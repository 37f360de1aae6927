/**
  The simulator that drives the scheduler: programs of CPU and I/O bursts, the I/O queue, process creation
  and the passing of ticks. Handlers are atomic, and no event is raised while an idle CPU has a process to
  dispatch.
*/
module SchedSim {
  import opened SchedState

  /** The bursts of a process still to come: CPU, I/O, CPU, ..., CPU. An odd number is left while the process
      counter is at a CPU burst, an even one at an I/O burst, none at the end. */
  type Program = seq<nat>

  datatype Request = Request(pid: Pid, time: nat)

  /** `at` is the place within a tick: the CPU whose turn it is, then the I/O queue, then process creation. */
  datatype Sim = Sim(sched: Sched, rest: seq<Program>, io: seq<Request>, created: nat, terminated: nat,
                     time: nat, at: nat)

  datatype Event = Next | Dispatch(cpu: nat)

  function Start(c: Config, programs: seq<Program>): Sim {
    Sim(StartSched(c), programs, [], 0, 0, 0, 0)
  }

  function Left(s: Sim, p: Pid): Program {
    if p < |s.rest| then s.rest[p] else []
  }

  function SetLeft(rest: seq<Program>, p: Pid, ops: Program): seq<Program> {
    if p < |rest| then rest[..p] + [ops] + rest[p + 1..] else rest
  }

  /** The process on CPU `n` runs for one tick: its burst and timer go down, or its burst is over and it goes
      on to its I/O burst or its end. */
  function SimulateCpu(c: Config, s: Sim, n: nat): Sim
    requires n < |s.sched.cpus|
  {
    if !Busy(s.sched, n) then s
    else
      var p := Current(s.sched, n);
      var ops := Left(s, p);
      if |ops| % 2 == 0 then s
      else if ops[0] > 0 then Burst(c, s, n, ops)
      else if |ops| == 1 then Ended(c, s, n, p)
      else Blocked(c, s, n, p, ops)
  }

  function Ended(c: Config, s: Sim, n: nat, p: Pid): Sim
    requires Busy(s.sched, n)
  {
    s.(rest := SetLeft(s.rest, p, []), terminated := s.terminated + 1, sched := Terminate(c, s.sched, n))
  }

  function Blocked(c: Config, s: Sim, n: nat, p: Pid, ops: Program): Sim
    requires Busy(s.sched, n) && |ops| > 1
  {
    s.(rest := SetLeft(s.rest, p, ops[1..]), io := s.io + [Request(p, ops[1])], sched := Yield(c, s.sched, n))
  }

  function Ticked(s: Sched, n: nat): Sched
    requires Busy(s, n)
  {
    s.(cpus := s.cpus[n := Cpu(s.cpus[n].current, s.cpus[n].timer - 1)])
  }

  function Burst(c: Config, s: Sim, n: nat, ops: Program): Sim
    requires Busy(s.sched, n) && ops != [] && ops[0] > 0
  {
    var ticked := Ticked(s.sched, n);
    s.(rest := SetLeft(s.rest, Current(s.sched, n), [ops[0] - 1] + ops[1..]),
       sched := if ticked.cpus[n].timer == 0 then Preempt(c, ticked, n) else ticked)
  }

  /** The request at the head of the I/O queue advances; when its time is up its process is woken. */
  function SimulateIo(c: Config, s: Sim): Sim {
    if s.io == [] then s
    else if s.io[0].time > 0 then s.(io := [Request(s.io[0].pid, s.io[0].time - 1)] + s.io[1..])
    else
      var p := s.io[0].pid;
      var ops := Left(s, p);
      s.(io := s.io[1..], rest := SetLeft(s.rest, p, if ops == [] then [] else ops[1..]),
         sched := WakeUp(c, s.sched, p))
  }

  /** Every tenth tick a process comes into being. */
  function SimulateCreat(c: Config, s: Sim): Sim {
    if s.time % 10 == 0 && s.created < |c.priority| then
      s.(sched := WakeUp(c, s.sched, s.created), created := s.created + 1)
    else s
  }

  /** The next part of the tick. */
  function Advance(c: Config, s: Sim): Sim {
    if s.at < |s.sched.cpus| then SimulateCpu(c, s, s.at).(at := s.at + 1)
    else if s.at == |s.sched.cpus| then SimulateIo(c, s).(at := s.at + 1)
    else SimulateCreat(c, s).(at := 0, time := s.time + 1)
  }

  /** The simulation exits at the start of a tick when every process has terminated. */
  predicate Finished(c: Config, s: Sim) {
    s.at == 0 && s.terminated >= |c.priority|
  }

  ghost predicate Enabled(c: Config, s: Sim, e: Event) {
    match e
    case Next => Settled(s.sched) && !Finished(c, s)
    case Dispatch(n) => n < |s.sched.cpus| && !Busy(s.sched, n) && s.sched.queue != []
  }

  ghost function Apply(c: Config, s: Sim, e: Event): Sim
    requires Enabled(c, s, e)
  {
    match e
    case Next => Advance(c, s)
    case Dispatch(n) => s.(sched := Idle(c, s.sched, n))
  }

  /** A run from `s`, each event enabled when its turn comes. */
  ghost predicate Runs(c: Config, s: Sim, events: seq<Event>)
    decreases |events|, 0
  {
    events == [] ||
      var before := events[..|events| - 1];
      Runs(c, s, before) && Enabled(c, After(c, s, before), events[|events| - 1])
  }

  ghost function After(c: Config, s: Sim, events: seq<Event>): Sim
    requires Runs(c, s, events)
    decreases |events|, 1
  {
    if events == [] then s
    else Apply(c, After(c, s, events[..|events| - 1]), events[|events| - 1])
  }
}
