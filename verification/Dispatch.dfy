/**
 * The loops of `cpu_routine` and `ld_routine` (src/os.c) as steps of a machine. A step runs from
 * one critical section of the scheduler to the next; any interleaving of the threads is a run.
 * Process i is the i-th one of the configuration file.
 */
module Dispatch {
  import opened Words
  import opened Queues
  import opened Scheduling

  datatype Job = Job(prio: nat, size: nat)

  datatype Config = Config(jobs: seq<Job>, timeSlot: int)

  /** Where a CPU thread stands: at the loop head, between put_proc and get_proc, or at the recheck. */
  datatype At = Top | Yielded | Recheck | Stopped

  /** `start` and `ticks`: the process's pc when it was dispatched and the calls of `run` since then. */
  datatype Cpu = Cpu(at: At, proc: Option<Pid>, timeLeft: int, start: nat, ticks: nat)

  /** `log` lists the executed instructions, `finished` the processes reported finished. */
  datatype Os = Os(sched: Sched, cpus: seq<Cpu>, pc: seq<nat>, loaded: nat, done: bool,
                   finished: set<Pid>, log: seq<(Pid, nat)>)

  predicate ConfigOk(c: Config) { forall p :: 0 <= p < |c.jobs| ==> c.jobs[p].prio < MAX_PRIO }

  predicate Shape(c: Config, os: Os) {
    && Valid(os.sched) && |os.pc| == |c.jobs| && os.loaded <= |c.jobs|
    && (forall i :: 0 <= i < |os.cpus| ==> CpuOk(c, os.cpus[i]))
  }

  predicate CpuOk(c: Config, cpu: Cpu) {
    cpu.proc.Some? ==> cpu.proc.value < |c.jobs| && cpu.at != Yielded && cpu.at != Stopped
  }

  datatype Step = LoadStep | CpuStep(cpu: nat)

  predicate Enabled(os: Os, st: Step) {
    match st
    case LoadStep => !os.done
    case CpuStep(i) => i < |os.cpus| && os.cpus[i].at != Stopped
  }

  function Fetch(os: Os, i: nat, cpu: Cpu, whenNone: At): Os
    requires Valid(os.sched) && i < |os.cpus|
  {
    var (sched, p) := Get(os.sched);
    os.(sched := sched, cpus := os.cpus[i := cpu.(proc := p, at := if p.None? then whenNone else Recheck)])
  }

  /** `run`, the countdown, and `next_slot`. */
  function RunOnce(c: Config, os: Os, i: nat, cpu: Cpu, p: Pid): Os
    requires i < |os.cpus| && |os.pc| == |c.jobs| && p < |c.jobs|
  {
    var ran := os.pc[p] < c.jobs[p].size;
    os.(cpus := os.cpus[i := cpu.(at := Top, timeLeft := cpu.timeLeft - 1, ticks := cpu.ticks + 1)],
        pc := if ran then os.pc[p := os.pc[p] + 1] else os.pc,
        log := if ran then os.log + [(p, os.pc[p])] else os.log)
  }

  function CpuNext(c: Config, os: Os, i: nat): Os
    requires ConfigOk(c) && Shape(c, os) && Enabled(os, CpuStep(i))
  {
    var cpu := os.cpus[i];
    match cpu.at
    case Top =>
      if cpu.proc.None? then Fetch(os, i, cpu, Top)
      else
        var p := cpu.proc.value;
        if os.pc[p] == c.jobs[p].size then Fetch(os.(finished := os.finished + {p}), i, cpu.(timeLeft := 0), Recheck)
        else if cpu.timeLeft == 0 then
          os.(sched := Put(os.sched, p, c.jobs[p].prio), cpus := os.cpus[i := cpu.(at := Yielded, proc := None)])
        else os.(cpus := os.cpus[i := cpu.(at := Recheck)])
    case Yielded => Fetch(os, i, cpu, Recheck)
    case Recheck =>
      if cpu.proc.None? then os.(cpus := os.cpus[i := cpu.(at := if os.done then Stopped else Top)])
      else
        var p := cpu.proc.value;
        RunOnce(c, os, i, if cpu.timeLeft == 0 then cpu.(timeLeft := c.timeSlot, start := os.pc[p], ticks := 0) else cpu, p)
    case Stopped => os
  }

  function Next(c: Config, os: Os, st: Step): Os
    requires ConfigOk(c) && Shape(c, os) && Enabled(os, st)
  {
    match st
    case CpuStep(i) => CpuNext(c, os, i)
    case LoadStep =>
      if os.loaded < |c.jobs| then
        os.(sched := Add(os.sched, os.loaded, c.jobs[os.loaded].prio), loaded := os.loaded + 1)
      else os.(done := true)
  }

  function Zeros(n: nat): (z: seq<nat>)
    ensures |z| == n && forall i :: 0 <= i < n ==> z[i] == 0
  {
    if n == 0 then [] else Zeros(n - 1) + [0]
  }

  function IdleCpus(n: nat): (cpus: seq<Cpu>)
    ensures |cpus| == n && forall i :: 0 <= i < n ==> cpus[i] == Cpu(Top, None, 0, 0, 0)
  {
    if n == 0 then [] else IdleCpus(n - 1) + [Cpu(Top, None, 0, 0, 0)]
  }

  function Boot(c: Config, cpus: nat): Os {
    Os(NewSched(), IdleCpus(cpus), Zeros(|c.jobs|), 0, false, {}, [])
  }
}
