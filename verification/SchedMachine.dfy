/** The scheduler on the heap: the ready queue linked through the process control blocks, `current`, and the
    handlers that update them in place. */
module SchedMachine {
  import opened Wrappers
  import opened SchedState
  import opened SchedInvariant

  class Pcb {
    const pid: Pid
    const staticPriority: nat
    var state: ProcState
    var pc: seq<nat>
    var next: Pcb?

    constructor (pid: Pid, staticPriority: nat, program: seq<nat>)
      ensures this.pid == pid && this.staticPriority == staticPriority
      ensures state == New && pc == program && next == null
    {
      this.pid, this.staticPriority := pid, staticPriority;
      state, pc, next := New, program, null;
    }
  }

  function Pids(list: seq<Pcb>): (pids: seq<Pid>)
    ensures |pids| == |list| && forall i :: 0 <= i < |list| ==> pids[i] == list[i].pid
  {
    seq(|list|, i requires 0 <= i < |list| => list[i].pid)
  }

  function PidOf(p: Pcb?): Option<Pid> {
    if p == null then None else Some(p.pid)
  }

  /** `head` starts the chain of exactly these blocks, and the last one ends it. */
  ghost predicate Linked(head: Pcb?, list: seq<Pcb>)
    reads list`next
  {
    && (list == [] <==> head == null)
    && (list != [] ==> head == list[0] && list[|list| - 1].next == null)
    && forall i :: 0 <= i < |list| - 1 ==> list[i].next == list[i + 1]
  }

  function StatesOf(ps: seq<Pcb>): (states: seq<ProcState>)
    reads ps`state
    ensures |states| == |ps| && forall i :: 0 <= i < |ps| ==> states[i] == ps[i].state
  {
    if ps == [] then [] else StatesOf(ps[..|ps| - 1]) + [ps[|ps| - 1].state]
  }

  class Kernel {
    const c: Config
    const processes: seq<Pcb>
    const current: array<Pcb?>
    const simCurrent: array<Pcb?>
    const timer: array<int>
    var qHead: Pcb?
    ghost var list: seq<Pcb>

    /** The tables, which never change. */
    ghost predicate TablesOk() {
      && |processes| == |c.priority|
      && (forall p :: 0 <= p < |processes| ==> processes[p].pid == p && processes[p].staticPriority == c.priority[p])
      && current.Length == simCurrent.Length == timer.Length == c.cpus
      && current != simCurrent
    }

    predicate IsProcess(p: Pcb) {
      p.pid < |processes| && processes[p.pid] == p
    }

    ghost predicate Valid()
      reads this`qHead, this`list, this.list`next, current
    {
      && TablesOk()
      && (forall i :: 0 <= i < |list| ==> list[i] in processes && IsProcess(list[i]))
      && Linked(qHead, list)
      && (forall n :: 0 <= n < current.Length && current[n] != null ==> IsProcess(current[n]))
    }

    /** The simulator runs on each CPU what `current` says. */
    ghost predicate Synced()
      reads current, simCurrent
    {
      current.Length == simCurrent.Length && forall n :: 0 <= n < current.Length ==> simCurrent[n] == current[n]
    }

    function Cpus(): seq<Cpu>
      requires TablesOk()
      reads current, timer
    {
      seq(current.Length, n requires 0 <= n < current.Length && TablesOk() reads current, timer =>
        Cpu(PidOf(current[n]), timer[n]))
    }

    ghost function View(): Sched
      requires TablesOk()
      reads this`list, processes`state, current, timer
    {
      Sched(Pids(list), StatesOf(processes), Cpus())
    }

    /** `main` and `start_simulator`: nothing ready, every CPU idle. */
    constructor (c: Config, processes: seq<Pcb>)
      requires ConfigOk(c) && |processes| == |c.priority|
      requires forall p :: 0 <= p < |processes| ==>
        processes[p].pid == p && processes[p].staticPriority == c.priority[p]
      ensures Ready() && this.c == c && this.processes == processes
      ensures fresh(current) && fresh(simCurrent) && fresh(timer) && list == []
      ensures View() == StartSched(c).(state := StatesOf(processes))
    {
      this.c, this.processes := c, processes;
      current := new Pcb?[c.cpus](_ => null);
      simCurrent := new Pcb?[c.cpus](_ => null);
      timer := new int[c.cpus](_ => -1);
      qHead, list := null, [];
      new;
      assert Cpus() == StartSched(c).cpus;
    }

    // ---------------------------------------------------------------- the ready queue

    /** Appends: walks to the last block of the chain. */
    method AddQueue(pcb: Pcb)
      requires Valid() && IsProcess(pcb) && pcb !in list
      modifies this`qHead, this`list, processes`next
      ensures Valid() && list == old(list) + [pcb]
    {
      pcb.next := null;
      var curr := qHead;
      if curr == null {
        qHead := pcb;
      } else {
        ghost var i := 0;
        while curr.next != null
          invariant 0 <= i < |list| && curr == list[i]
          invariant Linked(qHead, list)
          decreases |list| - i
        {
          curr := curr.next;
          i := i + 1;
        }
        forall j | 0 <= j < |list| - 1 ensures list[j] != curr {
          assert list[j].next == list[j + 1];
        }
        curr.next := pcb;
      }
      list := list + [pcb];
    }

    /** Takes the head off. */
    method Get() returns (pcb: Pcb?)
      requires Valid()
      modifies this`qHead, this`list
      ensures Valid()
      ensures old(list) == [] ==> pcb == null && list == []
      ensures old(list) != [] ==> pcb == old(list)[0] && list == old(list)[1..]
    {
      pcb := qHead;
      if pcb != null {
        assert pcb.next == if |list| == 1 then null else list[1];
        qHead := pcb.next;
        list := list[1..];
      }
    }

    /** The first loop of `gethighestone`. It starts from level 0, so it finds nothing exactly when every
        queued process has priority 0; the source then goes on with an uninitialised pointer. */
    method FindHighest() returns (highest: Pcb?)
      requires Valid() && list != []
      ensures highest == null <==> forall i :: 0 <= i < |list| ==> list[i].staticPriority == 0
      ensures highest != null ==> highest == list[Highest(c, Pids(list))]
    {
      ghost var pids := Pids(list);
      var lvl := 0;
      var found: Pcb? := null;
      var curr := qHead;
      ghost var i := 0;
      while curr != null
        invariant 0 <= i <= |list| && curr == if i < |list| then list[i] else null
        invariant found == null ==> lvl == 0 && forall j :: 0 <= j < i ==> list[j].staticPriority == 0
        invariant found != null ==> 0 < i && lvl == found.staticPriority > 0 && found == list[Highest(c, pids[..i])]
        invariant found != null ==> exists j :: 0 <= j < i && list[j].staticPriority > 0
        decreases |list| - i
      {
        assert Prio(c, pids[i]) == curr.staticPriority;
        assert pids[..i + 1][..i] == pids[..i];
        if curr.staticPriority > lvl {
          lvl := curr.staticPriority;
          found := curr;
        }
        curr := curr.next;
        i := i + 1;
      }
      assert pids[..i] == pids;
      highest := found;
    }

    /** The second loop of `gethighestone`: the block before `highest`. */
    method FindBefore(highest: Pcb, ghost k: nat) returns (curr: Pcb)
      requires Valid() && Distinct(list) && 0 < k < |list| && highest == list[k]
      ensures curr == list[k - 1]
    {
      curr := qHead;
      ghost var j := 0;
      while curr.next != highest
        invariant 0 <= j < k && curr == list[j]
        decreases k - j
      {
        curr := curr.next;
        j := j + 1;
      }
      assert list[j].next == list[j + 1];
    }

    /** The pointers that go around `highest`, at the head or behind the block before it. */
    method Bypass(highest: Pcb, ghost k: nat)
      requires Valid() && Distinct(list) && k < |list| && highest == list[k]
      modifies this`qHead, processes`next
      ensures Linked(qHead, Without(list, k))
    {
      assert k + 1 < |list| ==> list[k].next == list[k + 1];
      if highest == qHead {
        qHead := qHead.next;
      } else {
        var before := FindBefore(highest, k);
        before.next := highest.next;
      }
    }

    method Unlink(highest: Pcb, ghost k: nat)
      requires Valid() && Distinct(list) && k < |list| && highest == list[k]
      modifies this`qHead, this`list, processes`next
      ensures Valid() && list == Without(old(list), k)
    {
      hide Linked, Distinct;
      WithoutElements(list, k);
      assert forall p :: p in list ==> p in processes && IsProcess(p);
      Bypass(highest, k);
      list := Without(list, k);
      assert forall i :: 0 <= i < |list| ==> list[i] in list;
    }

    /** Takes out the first block of maximum priority. */
    method GetHighestOne() returns (pcb: Pcb?)
      requires Valid() && Distinct(list)
      requires |list| <= 1 || exists i :: 0 <= i < |list| && list[i].staticPriority > 0
      modifies this`qHead, this`list, processes`next
      ensures Valid()
      ensures old(list) == [] ==> pcb == null && list == []
      ensures old(list) != [] ==>
        var k := Highest(c, Pids(old(list)));
        pcb == old(list)[k] && list == Without(old(list), k)
    {
      assert |list| > 1 ==> list[0].next == list[1];
      if qHead == null {
        return null;
      } else if qHead.next == null {
        pcb := qHead;
        qHead := null;
        list := [];
      } else {
        var highest := FindHighest();
        Unlink(highest, Highest(c, Pids(list)));
        pcb := highest;
      }
    }

    // ---------------------------------------------------------------- handlers

    ghost predicate Ready(): (ready: bool)
      reads this`qHead, this`list, this.list`next, current, simCurrent
      ensures ready ==> TablesOk()
    {
      Valid() && Synced() && Distinct(list) && ConfigOk(c)
    }

    method Mark(pcb: Pcb, v: ProcState)
      requires Ready() && IsProcess(pcb)
      modifies pcb`state
      ensures Ready()
      ensures StatesOf(processes) == SetState(old(StatesOf(processes)), pcb.pid, v)
    {
      pcb.state := v;
      assert forall p :: 0 <= p < |processes| && processes[p] == pcb ==> p == pcb.pid;
    }

    /** The simulator's side of a dispatch. */
    method ContextSwitch(cpu: nat, pcb: Pcb?, preemptionTime: int)
      requires TablesOk() && cpu < c.cpus
      modifies simCurrent, timer
      ensures simCurrent[cpu] == pcb && timer[cpu] == preemptionTime
      ensures forall n :: 0 <= n < c.cpus && n != cpu ==>
        simCurrent[n] == old(simCurrent[n]) && timer[n] == old(timer[n])
    {
      simCurrent[cpu], timer[cpu] := pcb, preemptionTime;
    }

    /** Gives CPU `cpu` the process picked from the queue, or nothing. */
    method Dispatch(cpu: nat, pcb: Pcb?)
      requires Ready() && cpu < c.cpus && (pcb != null ==> IsProcess(pcb))
      modifies current, simCurrent, timer
      ensures Ready()
      ensures Cpus() == old(Cpus())[cpu := Cpu(PidOf(pcb), c.timeslice)]
    {
      current[cpu] := pcb;
      ContextSwitch(cpu, pcb, c.timeslice);
    }

    /** What `schedule` takes from the queue. */
    method Take() returns (pcb: Pcb?)
      requires Ready()
      modifies this`qHead, this`list, processes`next
      ensures Ready()
      ensures old(list) == [] ==> pcb == null && list == []
      ensures old(list) != [] ==>
        var pids := Pids(old(list));
        pcb != null && IsProcess(pcb) && pcb.pid == pids[Pick(c, pids)] && Pids(list) == Without(pids, Pick(c, pids))
    {
      WithoutList();
      if c.byPriority {
        assert list != [] ==> list[0].staticPriority > 0;
        pcb := GetHighestOne();
      } else {
        pcb := Get();
      }
    }

    lemma WithoutList()
      requires Valid() && Distinct(list)
      ensures forall k: nat :: k < |list| ==>
        Distinct(Without(list, k)) && Pids(Without(list, k)) == Without(Pids(list), k)
    {
    }

    method Schedule(cpu: nat)
      requires Ready() && cpu < c.cpus
      modifies this`qHead, this`list, processes`next, processes`state, current, simCurrent, timer
      ensures Ready()
      ensures View() == SchedState.Schedule(c, old(View()), cpu)
    {
      hide Pick, Without, SetState, IsProcess, Ready, TablesOk, StatesOf, Pids, Cpus;
      var pcb := Take();
      if pcb != null {
        Mark(pcb, Running);
      }
      Dispatch(cpu, pcb);
    }

    /** Marks READY and puts at the end of the queue, as `preempt` and `wake_up` do. */
    method MakeReady(pcb: Pcb)
      requires Ready() && IsProcess(pcb) && pcb.pid !in View().queue
      modifies this`qHead, this`list, processes`next, pcb`state
      ensures Ready() && current[..] == old(current[..])
      ensures View() == Enqueue(old(View()), pcb.pid)
    {
      hide Ready, TablesOk, IsProcess, SetState, StatesOf, Pids, Cpus;
      NotQueued(pcb);
      Mark(pcb, ProcState.Ready);
      Append(pcb);
    }

    method Append(pcb: Pcb)
      requires Ready() && IsProcess(pcb) && pcb !in list
      modifies this`qHead, this`list, processes`next
      ensures Ready()
      ensures Pids(list) == old(Pids(list)) + [pcb.pid]
    {
      AddQueue(pcb);
      assert Pids(list) == old(Pids(list)) + [pcb.pid];
    }

    lemma NotQueued(pcb: Pcb)
      requires Ready() && pcb.pid !in Pids(list)
      ensures pcb !in list
    {
      assert forall i :: 0 <= i < |list| ==> Pids(list)[i] == list[i].pid;
    }

    /** What a handler finds in `current`. */
    lemma CurrentIs(cpu: nat)
      requires Ready() && cpu < c.cpus
      ensures Busy(View(), cpu) <==> current[cpu] != null
      ensures current[cpu] != null ==> IsProcess(current[cpu]) && Current(View(), cpu) == current[cpu].pid
    {
    }

    method Idle(cpu: nat)
      requires Ready() && cpu < c.cpus && !Busy(View(), cpu) && View().queue != []
      modifies this`qHead, this`list, processes`next, processes`state, current, simCurrent, timer
      ensures Ready()
      ensures View() == SchedState.Idle(c, old(View()), cpu)
    {
      Schedule(cpu);
    }

    method Preempt(cpu: nat)
      requires Ready() && Consistent(c, View()) && Busy(View(), cpu)
      modifies this`qHead, this`list, processes`next, processes`state, current, simCurrent, timer
      ensures Ready()
      ensures View() == SchedState.Preempt(c, old(View()), cpu)
    {
      hide SchedState.Schedule, Ready, Consistent;
      RunningNotQueued(c, View(), cpu);
      CurrentIs(cpu);
      var pcb := current[cpu];
      MakeReady(pcb);
      Schedule(cpu);
    }

    method Yield(cpu: nat)
      requires Ready() && Busy(View(), cpu)
      modifies this`qHead, this`list, processes`next, processes`state, current, simCurrent, timer
      ensures Ready()
      ensures View() == SchedState.Yield(c, old(View()), cpu)
    {
      hide SchedState.Schedule, Ready;
      CurrentIs(cpu);
      var pcb := current[cpu];
      Mark(pcb, Waiting);
      Schedule(cpu);
    }

    method Terminate(cpu: nat)
      requires Ready() && Busy(View(), cpu)
      modifies this`qHead, this`list, processes`next, processes`state, current, simCurrent, timer
      ensures Ready()
      ensures View() == SchedState.Terminate(c, old(View()), cpu)
    {
      hide SchedState.Schedule, Ready;
      CurrentIs(cpu);
      var pcb := current[cpu];
      Mark(pcb, Terminated);
      Schedule(cpu);
    }

    /** The loop of `wake_up`: stops at an idle CPU; otherwise the lowest priority below 10 and where it runs. */
    method ScanCurrent() returns (doOrNot: bool, lows: nat, stop: nat)
      requires Ready()
      ensures match ScanCpus(c, View().cpus, |View().cpus|)
              case IdleCpu => doOrNot
              case Lows(l, s) => !doOrNot && lows == l && (s.Some? ==> stop == s.value)
    {
      doOrNot, lows, stop := false, 10, 0;
      ghost var cpus := Cpus();
      var i := 0;
      while i < c.cpus && !doOrNot
        invariant 0 <= i <= c.cpus
        invariant match ScanCpus(c, cpus, i)
                  case IdleCpu => doOrNot
                  case Lows(l, s) => !doOrNot && lows == l && (s.Some? ==> stop == s.value)
        decreases c.cpus - i, !doOrNot
      {
        if current[i] == null {
          doOrNot := true;
        } else if current[i].staticPriority < lows {
          lows, stop := current[i].staticPriority, i;
        }
        i := i + 1;
      }
      if doOrNot {
        IdleStays(c, cpus, i);
      }
    }

    /** The simulator preempts a CPU only while it runs a process. */
    method ForcePreempt(cpu: nat)
      requires Ready() && Consistent(c, View()) && cpu < c.cpus
      modifies this`qHead, this`list, processes`next, processes`state, current, simCurrent, timer
      ensures Ready()
      ensures View() == if Busy(old(View()), cpu) then SchedState.Preempt(c, old(View()), cpu) else old(View())
    {
      CurrentIs(cpu);
      if simCurrent[cpu] != null {
        Preempt(cpu);
      }
    }

    lemma NotReadyYet(pcb: Pcb)
      requires Ready() && Consistent(c, View()) && IsProcess(pcb)
      requires pcb.state != ProcState.Ready && pcb.state != Running
      ensures pcb.pid < |View().state| && View().state[pcb.pid] == pcb.state && pcb.pid !in View().queue
      ensures pcb.staticPriority == Prio(c, pcb.pid) && |View().cpus| == c.cpus
      ensures c.byPriority ==> pcb.staticPriority <= 10
    {
    }

    method WakeUp(pcb: Pcb)
      requires Ready() && Consistent(c, View()) && IsProcess(pcb)
      requires pcb.state != ProcState.Ready && pcb.state != Running
      modifies this`qHead, this`list, processes`next, processes`state, current, simCurrent, timer
      ensures Ready()
      ensures View() == SchedState.WakeUp(c, old(View()), pcb.pid)
    {
      hide SchedState.Schedule, SchedState.Preempt, Ready, Consistent, ScanCpus;
      ghost var before := View();
      NotReadyYet(pcb);
      EnqueueConsistent(c, before, pcb.pid);
      ScanFinds(c, before.cpus, |before.cpus|);
      MakeReady(pcb);
      if c.byPriority {
        var doOrNot, lows, stop := ScanCurrent();
        if !doOrNot && lows < pcb.staticPriority {
          ForcePreempt(stop);
        }
      }
    }
  }

  lemma RunningNotQueued(c: Config, s: Sched, n: nat)
    requires Consistent(c, s) && Busy(s, n)
    ensures Current(s, n) !in s.queue
  {
  }

  lemma {:induction false} IdleStays(c: Config, cpus: seq<Cpu>, i: nat)
    requires i <= |cpus| && ScanCpus(c, cpus, i) == IdleCpu
    ensures ScanCpus(c, cpus, |cpus|) == IdleCpu
    decreases |cpus| - i
  {
    if i < |cpus| {
      IdleStays(c, cpus, i + 1);
    }
  }

  /** A ready queue of two blocks. */
  method QueueTwo(c: Config, a: Pcb, b: Pcb) returns (kernel: Kernel)
    requires ConfigOk(c) && |c.priority| == 2 && a != b
    requires a.pid == 0 && b.pid == 1 && a.staticPriority == c.priority[0] && b.staticPriority == c.priority[1]
    modifies a`next, b`next
    ensures kernel.Valid() && kernel.list == [a, b]
  {
    hide Linked, StatesOf, Pids, StartSched, Kernel.View;
    var processes := [a, b];
    kernel := new Kernel(c, processes);
    assert a in processes && b in processes && kernel.IsProcess(a) && kernel.IsProcess(b);
    kernel.AddQueue(a);
    kernel.AddQueue(b);
  }

  /** Two processes of priority 0, both queued: the search of `gethighestone` finds neither. */
  method TwoAtPriorityZero() returns (kernel: Kernel, highest: Pcb?)
    ensures kernel.Valid() && |kernel.list| == 2
    ensures forall i :: 0 <= i < 2 ==> 0 <= kernel.list[i].staticPriority <= 10
    ensures highest == null
  {
    hide Linked, Highest, Pids, Kernel.Valid;
    var a := new Pcb(0, 0, [1]);
    var b := new Pcb(1, 0, [1]);
    kernel := QueueTwo(Config(1, -1, false, [0, 0]), a, b);
    highest := kernel.FindHighest();
  }
}
