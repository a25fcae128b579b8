/**
 * The time slots of `cpu_routine` (src/os.c) and the instructions `run` executes (src/cpu.c):
 * exact quanta, instructions in order and once each, and the scheduler's bound seen from the CPUs.
 */
module Quantum {
  import opened Words
  import opened Queues
  import opened Scheduling
  import opened Dispatch
  import opened Ownership
  import Starvation

  function Min(a: nat, b: nat): nat { if a <= b then a else b }

  /** The program indices that process p has executed, in the order of the log. */
  function Executed(log: seq<(Pid, nat)>, p: Pid): seq<nat> {
    if log == [] then []
    else Executed(log[..|log| - 1], p) + (if log[|log| - 1].0 == p then [log[|log| - 1].1] else [])
  }

  function Upto(n: nat): (s: seq<nat>)
    ensures |s| == n && forall i :: 0 <= i < n ==> s[i] == i
  {
    if n == 0 then [] else Upto(n - 1) + [n - 1]
  }

  /** A process in the middle of its quantum: `ticks` of the slot are used up. */
  predicate InQuantum(c: Config, os: Os, cpu: Cpu, p: Pid)
    requires p < |c.jobs| && p < |os.pc|
  {
    && cpu.ticks >= 1 && cpu.timeLeft == c.timeSlot - cpu.ticks && (c.timeSlot >= 1 ==> cpu.timeLeft >= 0)
    && cpu.start <= c.jobs[p].size
    && os.pc[p] == cpu.start + Min(cpu.ticks, c.jobs[p].size - cpu.start)
  }

  predicate CpuQuantum(c: Config, os: Os, cpu: Cpu)
    requires CpuOk(c, cpu) && |os.pc| == |c.jobs|
  {
    match cpu.proc
    case None => cpu.timeLeft == 0
    case Some(p) =>
      if cpu.at == Recheck && cpu.timeLeft == 0 then true
      else InQuantum(c, os, cpu, p) && (cpu.at == Recheck ==> os.pc[p] < c.jobs[p].size)
  }

  ghost predicate Accounted(c: Config, os: Os) {
    && Safe(c, os)
    && (forall i :: 0 <= i < |os.cpus| ==> CpuQuantum(c, os, os.cpus[i]))
    && (forall p :: 0 <= p < |c.jobs| ==> os.pc[p] <= c.jobs[p].size && Executed(os.log, p) == Upto(os.pc[p]))
    && (forall p :: p in os.finished ==> p < |c.jobs| && os.pc[p] == c.jobs[p].size)
  }

  lemma BootAccounted(c: Config, cpus: nat)
    requires ConfigOk(c)
    ensures Accounted(c, Boot(c, cpus))
  {
    BootSafe(c, cpus);
  }

  // Only the CPU that holds p executes p.
  lemma OthersKeepPc(c: Config, os: Os, i: nat, j: nat)
    requires Safe(c, os) && i < |os.cpus| && j < |os.cpus| && i != j && os.cpus[i].proc.Some?
    ensures os.cpus[j].proc != os.cpus[i].proc
  {
    var p := os.cpus[i].proc.value;
    assert Owners(os, p) <= Due(os, p);
    if os.cpus[j].proc == Some(p) {
      CpuPair(os.cpus, if i < j then i else j, if i < j then j else i, p);
    }
  }

  lemma HolderUnfinished(c: Config, os: Os, i: nat)
    requires Safe(c, os) && i < |os.cpus| && os.cpus[i].proc.Some?
    ensures os.cpus[i].proc.value !in os.finished
  {
    CpuAtLeast(os.cpus, i, os.cpus[i].proc.value);
    assert Owners(os, os.cpus[i].proc.value) <= Due(os, os.cpus[i].proc.value);
  }

  lemma NextCpus(c: Config, os: Os, i: nat, j: nat)
    requires Accounted(c, os) && Enabled(os, CpuStep(i)) && j < |os.cpus|
    ensures var t := Next(c, os, CpuStep(i));
            |t.cpus| == |os.cpus| && CpuOk(c, t.cpus[j]) && |t.pc| == |c.jobs| && CpuQuantum(c, t, t.cpus[j])
  {
    NextSafe(c, os, CpuStep(i));
    assert CpuQuantum(c, os, os.cpus[j]) && CpuQuantum(c, os, os.cpus[i]);
    CpuEffect(c, os, i);
    if i == j {
      OwnCpu(c, os, i);
    } else {
      if os.cpus[i].proc.Some? {
        OthersKeepPc(c, os, i, j);
      }
      OtherCpu(c, os, i, j);
    }
  }

  lemma OwnCpu(c: Config, os: Os, i: nat)
    requires ConfigOk(c) && Shape(c, os) && Enabled(os, CpuStep(i)) && CpuQuantum(c, os, os.cpus[i])
    requires os.cpus[i].proc.Some? ==> os.pc[os.cpus[i].proc.value] <= c.jobs[os.cpus[i].proc.value].size
    requires Shape(c, Next(c, os, CpuStep(i))) && i < |Next(c, os, CpuStep(i)).cpus|
    ensures CpuQuantum(c, Next(c, os, CpuStep(i)), Next(c, os, CpuStep(i)).cpus[i])
  {
    hide Get, Put;
  }

  lemma OtherCpu(c: Config, os: Os, i: nat, j: nat)
    requires ConfigOk(c) && Shape(c, os) && Enabled(os, CpuStep(i)) && i != j && j < |os.cpus|
    requires os.cpus[i].proc.Some? ==> os.cpus[j].proc != os.cpus[i].proc
    requires CpuQuantum(c, os, os.cpus[j])
    requires var t := Next(c, os, CpuStep(i)); |t.pc| == |c.jobs| && |t.cpus| == |os.cpus|
    ensures var t := Next(c, os, CpuStep(i));
            t.cpus[j] == os.cpus[j] && CpuQuantum(c, t, os.cpus[j])
  {
    hide Get, Put;
  }

  lemma ExecutedAppend(log: seq<(Pid, nat)>, x: Pid, k: nat, p: Pid)
    ensures Executed(log + [(x, k)], p) == Executed(log, p) + (if x == p then [k] else [])
  {
    assert (log + [(x, k)])[..|log|] == log;
  }

  /** The step of CPU i executes an instruction of the process it holds. */
  predicate Executes(c: Config, os: Os, i: nat)
    requires Shape(c, os) && i < |os.cpus|
  {
    os.cpus[i].at == Recheck && os.cpus[i].proc.Some? && os.pc[os.cpus[i].proc.value] < c.jobs[os.cpus[i].proc.value].size
  }

  lemma NextPc(c: Config, os: Os, i: nat)
    requires ConfigOk(c) && Shape(c, os) && Enabled(os, CpuStep(i))
    ensures var t := Next(c, os, CpuStep(i));
            if Executes(c, os, i) then
              var p := os.cpus[i].proc.value;
              t.pc == os.pc[p := os.pc[p] + 1] && t.log == os.log + [(p, os.pc[p])]
            else t.pc == os.pc && t.log == os.log
  {}

  lemma NextLog(c: Config, os: Os, i: nat, p: Pid)
    requires Accounted(c, os) && Enabled(os, CpuStep(i)) && p < |c.jobs|
    ensures var t := Next(c, os, CpuStep(i));
            |t.pc| == |c.jobs| && t.pc[p] <= c.jobs[p].size && Executed(t.log, p) == Upto(t.pc[p])
            && (t.pc[p] != os.pc[p] ==> os.cpus[i].proc == Some(p))
  {
    NextPc(c, os, i);
    if Executes(c, os, i) {
      ExecutedAppend(os.log, os.cpus[i].proc.value, os.pc[os.cpus[i].proc.value], p);
    }
    hide Next;
  }

  lemma NextAccounted(c: Config, os: Os, st: Step)
    requires Accounted(c, os) && Enabled(os, st)
    ensures Accounted(c, Next(c, os, st))
  {
    NextSafe(c, os, st);
    var t := Next(c, os, st);
    if st.CpuStep? {
      var i := st.cpu;
      forall j | 0 <= j < |t.cpus|
        ensures CpuQuantum(c, t, t.cpus[j])
      {
        NextCpus(c, os, i, j);
      }
      forall p | 0 <= p < |c.jobs|
        ensures t.pc[p] <= c.jobs[p].size && Executed(t.log, p) == Upto(t.pc[p])
      {
        NextLog(c, os, i, p);
      }
      forall p | p in t.finished
        ensures p < |c.jobs| && t.pc[p] == c.jobs[p].size
      {
        if os.cpus[i].proc.Some? {
          HolderUnfinished(c, os, i);
        }
        if p in os.finished {
          NextLog(c, os, i, p);
        }
      }
    }
  }

  lemma {:induction false} RunAccounted(c: Config, os: Os, steps: seq<Step>)
    requires Accounted(c, os) && CanRun(c, os, steps)
    ensures Accounted(c, RunSteps(c, os, steps))
    decreases |steps|
  {
    if steps == [] {
    } else {
      NextAccounted(c, os, steps[0]);
      RunAccounted(c, Next(c, os, steps[0]), steps[1..]);
    }
  }

  /** What a process executes between its dispatch and the moment the CPU lets go of it. */
  function QuantumOf(c: Config, left: nat): nat { if c.timeSlot >= 1 then Min(c.timeSlot, left) else left }

  /** The process has executed exactly min(time_slot, remaining) since its dispatch. */
  predicate FullQuantum(c: Config, os: Os, i: nat)
    requires Shape(c, os) && i < |os.cpus| && os.cpus[i].proc.Some?
  {
    var cpu, p := os.cpus[i], os.cpus[i].proc.value;
    var left := c.jobs[p].size - cpu.start;
    left >= 0 && os.pc[p] - cpu.start == QuantumOf(c, left) && (Yields(c, os, i) <==> QuantumOf(c, left) < left)
  }

  // When a CPU puts a process back or reports it finished, the process has executed exactly
  // min(time_slot, remaining) instructions since its dispatch; it is put back if some remain.
  lemma ExactQuantum(c: Config, cpus: nat, steps: seq<Step>, i: nat)
    requires ConfigOk(c) && CanRun(c, Boot(c, cpus), steps)
    ensures var os := RunSteps(c, Boot(c, cpus), steps);
            Shape(c, os) && (i < |os.cpus| && (Yields(c, os, i) || Finishes(c, os, i)) ==> FullQuantum(c, os, i))
  {
    BootAccounted(c, cpus);
    RunAccounted(c, Boot(c, cpus), steps);
    var os := RunSteps(c, Boot(c, cpus), steps);
    if i < |os.cpus| {
      assert CpuQuantum(c, os, os.cpus[i]) && Safe(c, os);
    }
  }

  // Over every interleaving: a CPU without a process has no time left, each process executes its
  // instructions in order and at most once, and all of them before it is reported finished.
  lemma InOrderOnce(c: Config, cpus: nat, steps: seq<Step>)
    requires ConfigOk(c) && CanRun(c, Boot(c, cpus), steps)
    ensures var os := RunSteps(c, Boot(c, cpus), steps);
            && |os.pc| == |c.jobs|
            && (forall i :: 0 <= i < |os.cpus| && os.cpus[i].proc.None? ==> os.cpus[i].timeLeft == 0)
            && (forall p :: 0 <= p < |c.jobs| ==> os.pc[p] <= c.jobs[p].size && Executed(os.log, p) == Upto(os.pc[p]))
            && (forall p :: p in os.finished ==> p < |c.jobs| && Executed(os.log, p) == Upto(c.jobs[p].size))
  {
    BootAccounted(c, cpus);
    RunAccounted(c, Boot(c, cpus), steps);
    var os := RunSteps(c, Boot(c, cpus), steps);
    forall i | 0 <= i < |os.cpus| && os.cpus[i].proc.None?
      ensures os.cpus[i].timeLeft == 0
    {
      assert CpuQuantum(c, os, os.cpus[i]);
    }
  }

  // ---------- the scheduler's events in a run of the machine ----------

  function EventOf(c: Config, os: Os, st: Step): seq<Event>
    requires ConfigOk(c) && Shape(c, os) && Enabled(os, st)
  {
    match st
    case LoadStep => if os.loaded < |c.jobs| then [AddEvent(os.loaded, c.jobs[os.loaded].prio)] else []
    case CpuStep(i) =>
      if Yields(c, os, i) then [PutEvent(os.cpus[i].proc.value, c.jobs[os.cpus[i].proc.value].prio)]
      else if Fetches(c, os, i) then [GetEvent]
      else []
  }

  function EventsOf(c: Config, os: Os, steps: seq<Step>): seq<Event>
    requires CanRun(c, os, steps)
    decreases |steps|
  {
    if steps == [] then [] else EventOf(c, os, steps[0]) + EventsOf(c, Next(c, os, steps[0]), steps[1..])
  }

  lemma NextEvent(c: Config, os: Os, st: Step)
    requires ConfigOk(c) && Shape(c, os) && Enabled(os, st)
    ensures var es := EventOf(c, os, st);
            AllCallable(es) && |es| <= 1 && Next(c, os, st).sched == if es == [] then os.sched else After(os.sched, es[0])
  {}

  // The machine drives the scheduler by its events and by nothing else.
  lemma {:induction false} SchedulerRun(c: Config, os: Os, steps: seq<Step>)
    requires CanRun(c, os, steps) && Valid(os.sched)
    ensures AllCallable(EventsOf(c, os, steps))
    ensures RunSteps(c, os, steps).sched == Scheduling.Run(os.sched, EventsOf(c, os, steps))
    decreases |steps|
  {
    if steps == [] {
    } else {
      NextEvent(c, os, steps[0]);
      var es := EventOf(c, os, steps[0]);
      var rest := EventsOf(c, Next(c, os, steps[0]), steps[1..]);
      SchedulerRun(c, Next(c, os, steps[0]), steps[1..]);
      if es == [] {
        assert es + rest == rest;
      } else {
        assert (es + rest)[0] == es[0] && (es + rest)[1..] == rest;
      }
    }
  }

  // So the starvation bound holds of every interleaving of CPUs and loader.
  lemma NoStarvation(c: Config, os: Os, steps: seq<Step>, q: nat, k: nat)
    requires CanRun(c, os, steps) && Valid(os.sched) && q < MAX_PRIO && k < |os.sched.ready[q]|
    ensures var es := EventsOf(c, os, steps);
            AllCallable(es) &&
            (Starvation.Gets(es) >= (k + 1) * (2 * Starvation.Settings(q)) ==> Starvation.Dispatched(os.sched, es, os.sched.ready[q][k]))
  {
    SchedulerRun(c, os, steps);
    Starvation.NoStarvation(os.sched, EventsOf(c, os, steps), q, k);
  }
}
