/** The simulator's loops on the heap, calling the scheduler's handlers. */
module SchedDriver {
  import opened SchedState
  import opened SchedSim
  import opened SchedSimInvariant
  import opened SchedTermination
  import opened SchedMachine
  import opened SchedIoQueue

  function PcsOf(ps: seq<Pcb>): (pcs: seq<Program>)
    reads ps`pc
    ensures |pcs| == |ps| && forall i :: 0 <= i < |ps| ==> pcs[i] == ps[i].pc
  {
    if ps == [] then [] else PcsOf(ps[..|ps| - 1]) + [ps[|ps| - 1].pc]
  }

  class Simulator {
    const kernel: Kernel
    const ioQueue: IoQueue
    var created: nat
    var terminated: nat
    var time: nat
    /** The place within the tick. */
    ghost var at: nat

    ghost predicate Ready(): (ready: bool)
      reads kernel`qHead, kernel`list, kernel.list`next, kernel.current, kernel.simCurrent, ioQueue, ioQueue.repr
      ensures ready ==> kernel.TablesOk()
    {
      kernel.Ready() && IoOk()
    }

    /** The requests are of processes in the table. */
    ghost predicate IoOk()
      reads ioQueue, ioQueue.repr
    {
      ioQueue.Valid() && forall i :: 0 <= i < |ioQueue.nodes| ==> kernel.IsProcess(ioQueue.nodes[i].pcb)
    }

    ghost function View(): Sim
      requires kernel.TablesOk()
      reads this, kernel`list, kernel.processes`state, kernel.processes`pc, kernel.current, kernel.timer, ioQueue
    {
      Sim(kernel.View(), PcsOf(kernel.processes), ioQueue.requests, created, terminated, time, at)
    }

    constructor (c: Config, processes: seq<Pcb>)
      requires ConfigOk(c) && ProgramsOk(c, PcsOf(processes)) && |processes| == |c.priority|
      requires forall p :: 0 <= p < |processes| ==>
        processes[p].pid == p && processes[p].staticPriority == c.priority[p] && processes[p].state == New
      ensures Ready() && kernel.c == c && kernel.processes == processes
      ensures fresh(kernel) && fresh(ioQueue) && fresh(ioQueue.repr)
      ensures fresh(kernel.current) && fresh(kernel.simCurrent) && fresh(kernel.timer)
      ensures View() == Start(c, PcsOf(processes))
    {
      hide ProgramsOk, ConfigOk, StartSched, Kernel.Ready, Kernel.View, StatesOf, PcsOf, IoQueue.Valid;
      kernel := new Kernel(c, processes);
      ioQueue := new IoQueue();
      created, terminated, time, at := 0, 0, 0, 0;
      new;
      AllNew(c, StatesOf(processes));
    }

    /** Moves a process's counter. */
    method SetPc(pcb: Pcb, ops: Program)
      requires Ready() && kernel.IsProcess(pcb)
      modifies pcb`pc
      ensures Ready() && kernel.View() == old(kernel.View())
      ensures PcsOf(kernel.processes) == SetLeft(old(PcsOf(kernel.processes)), pcb.pid, ops)
    {
      hide IoOk, IoQueue.Valid, Kernel.View, Kernel.Ready, SetLeft;
      SetLeftIs(PcsOf(kernel.processes), pcb.pid, ops);
      pcb.pc := ops;
      assert forall p :: 0 <= p < |kernel.processes| && kernel.processes[p] == pcb ==> p == pcb.pid;
    }

    /** The head of the I/O queue names a waiting process with an I/O burst and more to come. */
    lemma IoHead()
      requires Ready() && Inv(kernel.c, View()) && ioQueue.requests != []
      ensures ioQueue.nodes != [] && Consistent(kernel.c, kernel.View())
      ensures var pcb := ioQueue.nodes[0].pcb;
        && kernel.IsProcess(pcb) && pcb.pid == ioQueue.requests[0].pid && |pcb.pc| >= 2 && pcb.state == Waiting
    {
      HeadOfIo(kernel.c, View());
      IoDoneInProgram(View().sched.state, View().rest, ioQueue.requests, created);
    }

    /** The handler leaves the process counters alone. */
    method CallWakeUp(pcb: Pcb)
      requires Ready() && Consistent(kernel.c, kernel.View()) && kernel.IsProcess(pcb)
      requires pcb.state == Waiting || pcb.state == New
      modifies kernel`qHead, kernel`list, kernel.processes, kernel.current, kernel.simCurrent, kernel.timer
      ensures Ready()
      ensures kernel.View() == SchedState.WakeUp(kernel.c, old(kernel.View()), pcb.pid)
      ensures PcsOf(kernel.processes) == old(PcsOf(kernel.processes))
    {
      hide IoOk, IoQueue.Valid, Kernel.Ready, Kernel.View, PcsOf, SchedState.WakeUp, Consistent;
      kernel.WakeUp(pcb);
    }

    /** Completes the request at the head of the I/O queue. */
    method CompleteIo()
      requires Ready() && Inv(kernel.c, View()) && ioQueue.requests != [] && ioQueue.requests[0].time == 0
      modifies ioQueue, kernel`qHead, kernel`list, kernel.processes, kernel.current, kernel.simCurrent, kernel.timer
      ensures Ready() && ioQueue.repr <= old(ioQueue.repr)
      ensures View() == SchedSim.SimulateIo(kernel.c, old(View()))
    {
      hide Inv, SchedState.WakeUp, Consistent, Ready, SetLeft, Kernel.View, Kernel.TablesOk, IoQueue.Valid;
      IoHead();
      var pcb := TakeRequest();
      SetPc(pcb, pcb.pc[1..]);
      CallWakeUp(pcb);
    }

    method TakeRequest() returns (pcb: Pcb)
      requires Ready() && ioQueue.requests != []
      modifies ioQueue
      ensures Ready() && ioQueue.repr <= old(ioQueue.repr)
      ensures ioQueue.requests == old(ioQueue.requests)[1..]
      ensures old(ioQueue.nodes) != [] && pcb == old(ioQueue.nodes)[0].pcb
    {
      pcb := ioQueue.RemoveHead();
    }

    /** What the queue's head pointer says. */
    lemma HeadPointer()
      requires Ready()
      ensures ioQueue.head == null <==> ioQueue.requests == []
      ensures ioQueue.head != null ==> ioQueue.head.executionTime == ioQueue.requests[0].time
    {
    }

    method SimulateIo()
      requires Ready() && Inv(kernel.c, View())
      modifies ioQueue, ioQueue.repr
      modifies kernel`qHead, kernel`list, kernel.processes, kernel.current, kernel.simCurrent, kernel.timer
      ensures Ready() && ioQueue.repr <= old(ioQueue.repr)
      ensures View() == SchedSim.SimulateIo(kernel.c, old(View()))
    {
      hide Inv, SchedState.WakeUp, Ready, SetLeft, Kernel.View, PcsOf;
      HeadPointer();
      if ioQueue.head != null {
        if ioQueue.head.executionTime > 0 {
          RunRequest();
        } else {
          CompleteIo();
        }
      }
    }

    method RunRequest()
      requires Ready() && ioQueue.requests != [] && ioQueue.requests[0].time > 0
      modifies ioQueue, ioQueue.repr
      ensures Ready() && ioQueue.repr == old(ioQueue.repr)
      ensures var requests := old(ioQueue.requests);
        ioQueue.requests == [Request(requests[0].pid, requests[0].time - 1)] + requests[1..]
    {
      ioQueue.RunHead();
    }

    method SimulateCreat()
      requires Ready() && Inv(kernel.c, View())
      modifies this`created
      modifies kernel`qHead, kernel`list, kernel.processes, kernel.current, kernel.simCurrent, kernel.timer
      ensures Ready()
      ensures View() == SchedSim.SimulateCreat(kernel.c, old(View()))
    {
      hide Inv, SchedState.WakeUp, Consistent, Ready, Kernel.View, PcsOf;
      NewProcess();
      if time % 10 == 0 && created < |kernel.processes| {
        CallWakeUp(kernel.processes[created]);
        created := created + 1;
      }
    }

    lemma NewProcess()
      requires Ready() && Inv(kernel.c, View())
      ensures |kernel.processes| == |kernel.c.priority| && Consistent(kernel.c, kernel.View())
      ensures created < |kernel.processes| ==>
        kernel.IsProcess(kernel.processes[created]) && kernel.processes[created].state == New
    {
    }

    // ---------------------------------------------------------------- the CPUs

    /** What the simulator finds on a busy CPU. */
    lemma OnCpu(cpu: nat)
      requires Ready() && Inv(kernel.c, View()) && Busy(View().sched, cpu)
      ensures cpu < kernel.c.cpus && kernel.simCurrent[cpu] != null && kernel.IsProcess(kernel.simCurrent[cpu])
      ensures kernel.simCurrent[cpu].pid == Current(kernel.View(), cpu) && |kernel.simCurrent[cpu].pc| % 2 == 1
      ensures Consistent(kernel.c, kernel.View()) && Busy(kernel.View(), cpu)
    {
      RunningHasBurst(kernel.c, View(), cpu);
    }

    method TickTimer(cpu: nat)
      requires Ready() && Busy(kernel.View(), cpu)
      modifies kernel.timer
      ensures Ready() && kernel.View() == Ticked(old(kernel.View()), cpu)
    {
      kernel.timer[cpu] := kernel.timer[cpu] - 1;
    }

    method CallPreempt(cpu: nat)
      requires Ready() && Consistent(kernel.c, kernel.View()) && Busy(kernel.View(), cpu)
      modifies kernel`qHead, kernel`list, kernel.processes, kernel.current, kernel.simCurrent, kernel.timer
      ensures Ready()
      ensures kernel.View() == SchedState.Preempt(kernel.c, old(kernel.View()), cpu)
      ensures PcsOf(kernel.processes) == old(PcsOf(kernel.processes))
    {
      hide IoOk, IoQueue.Valid, Kernel.Ready, Kernel.View, PcsOf, SchedState.Preempt, Consistent;
      kernel.Preempt(cpu);
    }

    method CallYield(cpu: nat)
      requires Ready() && Busy(kernel.View(), cpu)
      modifies kernel`qHead, kernel`list, kernel.processes, kernel.current, kernel.simCurrent, kernel.timer
      ensures Ready()
      ensures kernel.View() == SchedState.Yield(kernel.c, old(kernel.View()), cpu)
      ensures PcsOf(kernel.processes) == old(PcsOf(kernel.processes))
    {
      hide IoOk, IoQueue.Valid, Kernel.Ready, Kernel.View, PcsOf, SchedState.Yield;
      kernel.Yield(cpu);
    }

    method CallTerminate(cpu: nat)
      requires Ready() && Busy(kernel.View(), cpu)
      modifies kernel`qHead, kernel`list, kernel.processes, kernel.current, kernel.simCurrent, kernel.timer
      ensures Ready()
      ensures kernel.View() == SchedState.Terminate(kernel.c, old(kernel.View()), cpu)
      ensures PcsOf(kernel.processes) == old(PcsOf(kernel.processes))
    {
      hide IoOk, IoQueue.Valid, Kernel.Ready, Kernel.View, PcsOf, SchedState.Terminate;
      kernel.Terminate(cpu);
    }

    /** The burst goes on; when the preemption timer reaches zero the process is preempted. */
    method RunBurst(cpu: nat, pcb: Pcb)
      requires Ready() && Consistent(kernel.c, kernel.View()) && Busy(kernel.View(), cpu)
      requires kernel.IsProcess(pcb) && pcb.pid == Current(kernel.View(), cpu) && pcb.pc != [] && pcb.pc[0] > 0
      modifies kernel`qHead, kernel`list, kernel.processes, kernel.current, kernel.simCurrent, kernel.timer
      ensures Ready()
      ensures View() == Burst(kernel.c, old(View()), cpu, old(pcb.pc))
    {
      hide SchedState.Preempt, Consistent, Ready, SetLeft;
      ghost var before := kernel.View();
      TickedConsistent(kernel.c, before, cpu);
      SetPc(pcb, [pcb.pc[0] - 1] + pcb.pc[1..]);
      TickTimer(cpu);
      if kernel.timer[cpu] == 0 {
        CallPreempt(cpu);
      }
    }

    /** The last burst is over. */
    method EndProcess(cpu: nat, pcb: Pcb)
      requires Ready() && Busy(kernel.View(), cpu)
      requires kernel.IsProcess(pcb) && pcb.pid == Current(kernel.View(), cpu) && |pcb.pc| % 2 == 1 && pcb.pc[0] == 0
      requires |pcb.pc| == 1
      modifies this`terminated
      modifies kernel`qHead, kernel`list, kernel.processes, kernel.current, kernel.simCurrent, kernel.timer
      ensures Ready()
      ensures View() == Ended(kernel.c, old(View()), cpu, pcb.pid)
    {
      hide SchedState.Terminate, Ready, SetLeft, Kernel.View, Kernel.TablesOk, PcsOf;
      SetPc(pcb, []);
      terminated := terminated + 1;
      CallTerminate(cpu);
    }

    method SubmitIo(pcb: Pcb, time: nat)
      requires Ready() && kernel.IsProcess(pcb)
      modifies ioQueue, ioQueue.repr
      ensures Ready() && fresh(ioQueue.repr - old(ioQueue.repr))
      ensures ioQueue.requests == old(ioQueue.requests) + [Request(pcb.pid, time)]
    {
      ioQueue.Submit(pcb, time);
    }

    /** The burst is over and an I/O burst follows. */
    method StartIo(cpu: nat, pcb: Pcb)
      requires Ready() && Busy(kernel.View(), cpu)
      requires kernel.IsProcess(pcb) && pcb.pid == Current(kernel.View(), cpu) && |pcb.pc| % 2 == 1 && pcb.pc[0] == 0
      requires |pcb.pc| > 1
      modifies ioQueue, ioQueue.repr
      modifies kernel`qHead, kernel`list, kernel.processes, kernel.current, kernel.simCurrent, kernel.timer
      ensures fresh(ioQueue.repr - old(ioQueue.repr))
      ensures Ready()
      ensures View() == Blocked(kernel.c, old(View()), cpu, pcb.pid, old(pcb.pc))
    {
      hide SchedState.Yield, Ready, SetLeft, Kernel.View, Kernel.TablesOk, PcsOf;
      var ops := pcb.pc[1..];
      SetPc(pcb, ops);
      SubmitIo(pcb, ops[0]);
      CallYield(cpu);
    }

    method SimulateProcess(cpu: nat)
      requires Ready() && Inv(kernel.c, View()) && Busy(View().sched, cpu)
      modifies ioQueue, ioQueue.repr, this`terminated
      modifies kernel`qHead, kernel`list, kernel.processes, kernel.current, kernel.simCurrent, kernel.timer
      ensures fresh(ioQueue.repr - old(ioQueue.repr))
      ensures Ready()
      ensures View() == SimulateCpu(kernel.c, old(View()), cpu)
    {
      hide Inv, SchedState.Yield, SchedState.Terminate, Consistent, Ready, SetLeft, Burst, Ended, Blocked, Kernel.View;
      OnCpu(cpu);
      var pcb := kernel.simCurrent[cpu];
      if pcb.pc[0] > 0 {
        RunBurst(cpu, pcb);
      } else if |pcb.pc| == 1 {
        EndProcess(cpu, pcb);
      } else {
        StartIo(cpu, pcb);
      }
    }

    // ---------------------------------------------------------------- the supervisor

    /** The heap holds the state that the run `events` leads to. */
    ghost predicate Reached(programs: seq<Program>, events: seq<Event>): (reached: bool)
      reads this, kernel`qHead, kernel`list, kernel.list`next, kernel.processes`state, kernel.processes`pc
      reads kernel.current, kernel.simCurrent, kernel.timer, ioQueue, ioQueue.repr
      ensures reached ==> Ready() && Inv(kernel.c, View()) && ConfigOk(kernel.c)
    {
      && Ready() && ConfigOk(kernel.c) && ProgramsOk(kernel.c, programs)
      && Runs(kernel.c, Start(kernel.c, programs), events)
      && View() == After(kernel.c, Start(kernel.c, programs), events)
      && Inv(kernel.c, View())
    }

    lemma BusyOrNot(n: nat)
      requires Ready() && n < kernel.c.cpus
      ensures Busy(View().sched, n) <==> kernel.simCurrent[n] != null
      ensures |View().sched.cpus| == kernel.c.cpus
    {
    }

    /** The part of the tick that simulates CPU `n`. */
    method CpuTurn(n: nat, ghost programs: seq<Program>, ghost events: seq<Event>) returns (ghost extended: seq<Event>)
      requires Reached(programs, events) && Settled(View().sched) && !Finished(kernel.c, View())
      requires n == at < kernel.c.cpus
      modifies ioQueue, ioQueue.repr, this`terminated, this`at
      modifies kernel`qHead, kernel`list, kernel.processes, kernel.current, kernel.simCurrent, kernel.timer
      ensures fresh(ioQueue.repr - old(ioQueue.repr))
      ensures Reached(programs, extended) && |extended| == |events| + 1 && at == n + 1
    {
      hide Inv, Runs, After, ProgramsOk, ConfigOk, Ready, Settled, SimulateCpu, Start, Finished, Kernel.View, PcsOf;
      extended := Extend(kernel.c, programs, events, Next);
      BusyOrNot(n);
      SimulateTurn(n);
      at := at + 1;
    }

    method SimulateTurn(n: nat)
      requires Ready() && Inv(kernel.c, View()) && n < kernel.c.cpus
      modifies ioQueue, ioQueue.repr, this`terminated
      modifies kernel`qHead, kernel`list, kernel.processes, kernel.current, kernel.simCurrent, kernel.timer
      ensures fresh(ioQueue.repr - old(ioQueue.repr))
      ensures Ready()
      ensures n < |old(View()).sched.cpus| && View() == SimulateCpu(kernel.c, old(View()), n)
    {
      hide Inv, Ready, Burst, Ended, Blocked;
      BusyOrNot(n);
      if kernel.simCurrent[n] != null {
        SimulateProcess(n);
      }
    }

    lemma CpuCount()
      requires Ready()
      ensures |View().sched.cpus| == kernel.c.cpus
    {
    }

    method IoTurn(ghost programs: seq<Program>, ghost events: seq<Event>) returns (ghost extended: seq<Event>)
      requires Reached(programs, events) && Settled(View().sched) && at == kernel.c.cpus && !Finished(kernel.c, View())
      modifies ioQueue, ioQueue.repr, this`at
      modifies kernel`qHead, kernel`list, kernel.processes, kernel.current, kernel.simCurrent, kernel.timer
      ensures fresh(ioQueue.repr - old(ioQueue.repr))
      ensures Reached(programs, extended) && |extended| == |events| + 1 && at == kernel.c.cpus + 1
    {
      hide Inv, Runs, After, ProgramsOk, ConfigOk, Ready, Settled, Start, Finished, Kernel.View, PcsOf;
      hide SchedSim.SimulateIo, SchedSim.SimulateCreat;
      extended := Extend(kernel.c, programs, events, Next);
      CpuCount();
      SimulateIo();
      at := at + 1;
    }

    method CreatTurn(ghost programs: seq<Program>, ghost events: seq<Event>) returns (ghost extended: seq<Event>)
      requires Reached(programs, events) && Settled(View().sched) && !Finished(kernel.c, View())
      requires at == kernel.c.cpus + 1
      modifies this`created, this`time, this`at
      modifies kernel`qHead, kernel`list, kernel.processes, kernel.current, kernel.simCurrent, kernel.timer
      ensures Reached(programs, extended) && |extended| == |events| + 1 && at == 0
    {
      hide Inv, Runs, After, ProgramsOk, ConfigOk, Ready, Settled, Start, Finished, Kernel.View, PcsOf;
      hide SchedSim.SimulateIo, SchedSim.SimulateCreat;
      extended := Extend(kernel.c, programs, events, Next);
      CpuCount();
      SimulateCreat();
      time := time + 1;
      at := 0;
    }

    method CallIdle(cpu: nat)
      requires Ready() && cpu < kernel.c.cpus && !Busy(kernel.View(), cpu) && kernel.View().queue != []
      modifies kernel`qHead, kernel`list, kernel.processes, kernel.current, kernel.simCurrent, kernel.timer
      ensures Ready()
      ensures kernel.View() == SchedState.Idle(kernel.c, old(kernel.View()), cpu)
      ensures PcsOf(kernel.processes) == old(PcsOf(kernel.processes))
    {
      hide IoOk, IoQueue.Valid, Kernel.Ready, Kernel.View, PcsOf, SchedState.Idle;
      kernel.Idle(cpu);
    }

    /** The idle CPUs' threads: each dispatches while something is ready. */
    method DispatchIdle(ghost programs: seq<Program>, ghost events: seq<Event>) returns (ghost extended: seq<Event>)
      requires Reached(programs, events)
      modifies kernel`qHead, kernel`list, kernel.processes, kernel.current, kernel.simCurrent, kernel.timer
      ensures Reached(programs, extended) && Settled(View().sched) && |extended| >= |events|
    {
      hide Reached, Inv, Settled, Ready, Kernel.View, PcsOf;
      extended := events;
      var n := 0;
      while n < kernel.c.cpus
        invariant Reached(programs, extended) && |extended| >= |events| && 0 <= n <= kernel.c.cpus
        invariant View().sched.queue == [] || forall m :: 0 <= m < n ==> Busy(View().sched, m)
      {
        BusyOrNot(n);
        HeadOrEmpty();
        if kernel.simCurrent[n] == null && kernel.qHead != null {
          extended := IdleTurn(n, programs, extended);
        }
        n := n + 1;
      }
      CpuCount();
      AllBusySettles(View().sched);
    }

    lemma HeadOrEmpty()
      requires Ready()
      ensures kernel.qHead == null <==> View().sched.queue == []
    {
    }

    method IdleTurn(n: nat, ghost programs: seq<Program>, ghost events: seq<Event>) returns (ghost extended: seq<Event>)
      requires Reached(programs, events) && n < kernel.c.cpus && !Busy(View().sched, n) && View().sched.queue != []
      modifies kernel`qHead, kernel`list, kernel.processes, kernel.current, kernel.simCurrent, kernel.timer
      ensures Reached(programs, extended) && |extended| == |events| + 1
      ensures Busy(View().sched, n) && forall m :: Busy(old(View()).sched, m) ==> Busy(View().sched, m)
    {
      hide Inv, Runs, After, ProgramsOk, ConfigOk, Settled, Start, Finished, Ready, Idle;
      BusyOrNot(n);
      IdleMakesBusy(kernel.c, View().sched, n);
      extended := Extend(kernel.c, programs, events, Event.Dispatch(n));
      CallIdle(n);
    }

    /** Every CPU in turn, the idle ones dispatching in between. */
    method CpuTurns(ghost programs: seq<Program>, ghost events: seq<Event>) returns (ghost extended: seq<Event>)
      requires Reached(programs, events) && Settled(View().sched) && at == 0 && !Finished(kernel.c, View())
      modifies ioQueue, ioQueue.repr, this`terminated, this`at
      modifies kernel`qHead, kernel`list, kernel.processes, kernel.current, kernel.simCurrent, kernel.timer
      ensures fresh(ioQueue.repr - old(ioQueue.repr))
      ensures Reached(programs, extended) && Settled(View().sched) && at == kernel.c.cpus && |extended| >= |events|
    {
      hide Reached, Inv, ConfigOk, Settled, Ready, Finished, View;
      extended := events;
      for n := 0 to kernel.c.cpus
        invariant Reached(programs, extended) && Settled(View().sched) && at == n && |extended| >= |events|
        invariant n == 0 ==> !Finished(kernel.c, View())
        invariant fresh(ioQueue.repr - old(ioQueue.repr))
      {
        NotFinishedInside();
        extended := CpuTurn(n, programs, extended);
        extended := DispatchIdle(programs, extended);
      }
    }

    /** One tick: every CPU, the I/O queue, process creation. */
    method Tick(ghost programs: seq<Program>, ghost events: seq<Event>) returns (ghost extended: seq<Event>)
      requires Reached(programs, events) && Settled(View().sched) && at == 0 && !Finished(kernel.c, View())
      modifies ioQueue, ioQueue.repr, this`created, this`terminated, this`time, this`at
      modifies kernel`qHead, kernel`list, kernel.processes, kernel.current, kernel.simCurrent, kernel.timer
      ensures fresh(ioQueue.repr - old(ioQueue.repr))
      ensures Reached(programs, extended) && Settled(View().sched) && at == 0 && |extended| > |events|
    {
      hide Reached, Inv, ConfigOk, Settled, Ready, Finished, View;
      AtLeastOneCpu();
      extended := CpuTurns(programs, events);
      NotFinishedInside();
      extended := IoTurn(programs, extended);
      extended := DispatchIdle(programs, extended);
      NotFinishedInside();
      extended := CreatTurn(programs, extended);
      extended := DispatchIdle(programs, extended);
    }

    lemma NotFinishedInside()
      requires Ready()
      ensures at > 0 ==> !Finished(kernel.c, View())
    {
    }

    lemma AtLeastOneCpu()
      requires ConfigOk(kernel.c)
      ensures kernel.c.cpus > 0
    {
    }

    /** The supervisor's loop: it ends, with every process terminated, within the ticks that the programs'
        bursts and the creation of processes take. */
    method Supervise(ghost programs: seq<Program>)
      requires Ready() && ConfigOk(kernel.c) && ProgramsOk(kernel.c, programs) && View() == Start(kernel.c, programs)
      modifies ioQueue, ioQueue.repr, this`created, this`terminated, this`time, this`at
      modifies kernel`qHead, kernel`list, kernel.processes, kernel.current, kernel.simCurrent, kernel.timer
      ensures fresh(ioQueue.repr - old(ioQueue.repr))
      ensures forall p :: 0 <= p < |kernel.processes| ==> kernel.processes[p].state == Terminated
      ensures time <= TotalOwed(programs) + Creation(kernel.c)
    {
      hide Inv, Runs, After, ProgramsOk, ConfigOk, Settled, Start, Ready, EventsIn, Kernel.View, PcsOf;
      StartReached(programs);
      ghost var events := [];
      while terminated < |kernel.processes|
        invariant Reached(programs, events) && Settled(View().sched) && at == 0
        invariant fresh(ioQueue.repr - old(ioQueue.repr))
        decreases EventsIn(kernel.c, TotalOwed(programs) + Creation(kernel.c)) - |events|
      {
        Bounded(programs, events);
        events := Tick(programs, events);
        Bounded(programs, events);
      }
      AllEnded(programs, events);
    }

    lemma StartReached(programs: seq<Program>)
      requires Ready() && ConfigOk(kernel.c) && ProgramsOk(kernel.c, programs) && View() == Start(kernel.c, programs)
      ensures Reached(programs, []) && Settled(View().sched) && at == 0
    {
      RunKeepsInv(kernel.c, programs, []);
    }

    lemma AllEnded(programs: seq<Program>, events: seq<Event>)
      requires Reached(programs, events) && at == 0 && terminated >= |kernel.processes|
      ensures forall p :: 0 <= p < |kernel.processes| ==> kernel.processes[p].state == Terminated
      ensures time <= TotalOwed(programs) + Creation(kernel.c)
    {
      hide Inv, Runs, After;
      Bounded(programs, events);
      assert forall p :: 0 <= p < |kernel.processes| ==> View().sched.state[p] in View().sched.state;
    }

    lemma Bounded(programs: seq<Program>, events: seq<Event>)
      requires Reached(programs, events)
      ensures |events| <= EventsIn(kernel.c, TotalOwed(programs) + Creation(kernel.c))
      ensures time <= TotalOwed(programs) + Creation(kernel.c)
      ensures |kernel.processes| == |kernel.c.priority|
      ensures Finished(kernel.c, View()) ==> forall v :: v in View().sched.state ==> v == Terminated
    {
      hide Inv, Runs, After, Start, Finished;
      SimulationTerminates(kernel.c, programs, events);
    }
  }

  lemma AllBusySettles(s: Sched)
    requires s.queue == [] || forall n :: 0 <= n < |s.cpus| ==> Busy(s, n)
    ensures Settled(s)
  {
    if s.queue != [] {
      forall n | 0 <= n < |s.cpus| ensures s.cpus[n].current.Some? {
        assert Busy(s, n);
      }
    }
  }

  lemma IdleMakesBusy(c: Config, s: Sched, n: nat)
    requires n < |s.cpus| && !Busy(s, n) && s.queue != []
    ensures Busy(Idle(c, s, n), n) && forall m :: Busy(s, m) ==> Busy(Idle(c, s, n), m)
  {
  }

  lemma Extend(c: Config, programs: seq<Program>, events: seq<Event>, e: Event) returns (extended: seq<Event>)
    requires ConfigOk(c) && ProgramsOk(c, programs) && Runs(c, Start(c, programs), events)
    requires Enabled(c, After(c, Start(c, programs), events), e)
    ensures extended == events + [e] && Runs(c, Start(c, programs), extended)
    ensures After(c, Start(c, programs), extended) == Apply(c, After(c, Start(c, programs), events), e)
    ensures Inv(c, After(c, Start(c, programs), extended))
  {
    extended := events + [e];
    assert extended[..|events|] == events;
    hide Inv;
    RunKeepsInv(c, programs, extended);
  }

  lemma AllNew(c: Config, states: seq<ProcState>)
    requires |states| == |c.priority| && forall p :: 0 <= p < |states| ==> states[p] == New
    ensures StartSched(c).state == states
  {
  }

  lemma TickedConsistent(c: Config, s: Sched, n: nat)
    requires Consistent(c, s) && Busy(s, n)
    ensures Consistent(c, Ticked(s, n)) && Busy(Ticked(s, n), n)
  {
    SameCurrentsConsistent(c, s, Ticked(s, n));
  }
}
