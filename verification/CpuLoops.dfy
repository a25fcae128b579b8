/** The bodies of `cpu_routine` and `ld_routine` (src/os.c) acting on the scheduler object. */
module CpuLoops {
  import opened Words
  import opened Queues
  import opened Scheduling
  import opened MlqScheduler
  import opened Dispatch
  import opened Ownership

  method IdleArray(n: nat) returns (a: array<Cpu>)
    ensures fresh(a) && a[..] == IdleCpus(n)
  {
    a := new Cpu[n](_ => Cpu(Top, None, 0, 0, 0));
  }

  method ZeroArray(n: nat) returns (a: array<nat>)
    ensures fresh(a) && a[..] == Zeros(n)
  {
    a := new nat[n](_ => 0);
  }

  class Machine {
    const config: Config
    const starts: seq<nat>  // start_time
    const sched: Scheduler
    const cpus: array<Cpu>
    const pc: array<nat>
    var loaded: nat
    var done: bool
    var finished: set<Pid>
    ghost var log: seq<(Pid, nat)>

    ghost function View(): Os
      reads this, sched, cpus, pc
    {
      Os(sched.view, cpus[..], pc[..], loaded, done, finished, log)
    }

    ghost function Repr(): set<object> { sched.Repr() + {this, cpus, pc} }

    ghost predicate Apart() { cpus !in sched.Repr() && pc !in sched.Repr() && this !in sched.Repr() }

    ghost predicate Valid()
      reads Repr()
    {
      Apart() && sched.Represents() && Safe(config, View())
    }

    constructor (config: Config, starts: seq<nat>, n: nat)
      requires ConfigOk(config) && |starts| == |config.jobs|
      ensures Valid() && this.config == config && this.starts == starts && View() == Boot(config, n)
    {
      hide Safe, IdleCpus, Zeros, NewSched, Scheduler.Represents;
      this.config := config;
      this.starts := starts;
      sched := new Scheduler();
      var list := IdleArray(n);
      var counters := ZeroArray(|config.jobs|);
      cpus, pc := list, counters;
      loaded, done, finished, log := 0, false, {}, [];
      new;
      BootSafe(config, n);
    }

    // `proc = get_proc()`, and where the loop goes on from there.
    method GetProc(i: nat, cpu: Cpu, whenNone: At)
      requires Apart() && sched.Represents() && i < cpus.Length
      modifies sched.Repr(), cpus
      ensures sched.Represents() && View() == Fetch(old(View()), i, cpu, whenNone)
    {
      hide Get;
      var p := sched.GetMlqProc();
      cpus[i] := cpu.(proc := p, at := if p.None? then whenNone else Recheck);
    }

    // `run(proc)`, `time_left--` and `next_slot`.
    method RunProc(i: nat, cpu: Cpu, p: Pid)
      requires Apart() && sched.Represents() && i < cpus.Length && pc.Length == |config.jobs| && p < |config.jobs|
      modifies this`log, cpus, pc
      ensures sched.Represents() && View() == RunOnce(config, old(View()), i, cpu, p)
    {
      cpus[i] := cpu.(at := Top, timeLeft := cpu.timeLeft - 1, ticks := cpu.ticks + 1);
      if pc[p] < config.jobs[p].size {
        log := log + [(p, pc[p])];
        pc[p] := pc[p] + 1;
      }
    }

    // The tests at the head of the loop of `cpu_routine`.
    method CheckProc(i: nat)
      requires Apart() && sched.Represents() && ConfigOk(config) && Shape(config, View())
      requires i < cpus.Length && cpus[i].at == Top
      modifies Repr()
      ensures sched.Represents() && View() == CpuNext(config, old(View()), i)
    {
      hide Put, Fetch;
      var cpu := cpus[i];
      if cpu.proc.None? {
        GetProc(i, cpu, Top);
      } else {
        var p := cpu.proc.value;
        if pc[p] == config.jobs[p].size {
          finished := finished + {p};
          GetProc(i, cpu.(timeLeft := 0), Recheck);
        } else if cpu.timeLeft == 0 {
          sched.PutMlqProc(p, config.jobs[p].prio);
          cpus[i] := cpu.(at := Yielded, proc := None);
        } else {
          cpus[i] := cpu.(at := Recheck);
        }
      }
    }

    // The tests after the process was looked up, and the run.
    method RecheckProc(i: nat)
      requires Apart() && sched.Represents() && ConfigOk(config) && Shape(config, View())
      requires i < cpus.Length && cpus[i].at == Recheck
      modifies Repr()
      ensures sched.Represents() && View() == CpuNext(config, old(View()), i)
    {
      hide RunOnce;
      var cpu := cpus[i];
      if cpu.proc.None? {
        cpus[i] := cpu.(at := if done then Stopped else Top);
      } else {
        var p := cpu.proc.value;
        if cpu.timeLeft == 0 {
          cpu := cpu.(timeLeft := config.timeSlot, start := pc[p], ticks := 0);
        }
        RunProc(i, cpu, p);
      }
    }

    method CpuTurn(i: nat)
      requires Valid() && Enabled(View(), CpuStep(i))
      modifies Repr()
      ensures Valid() && View() == Next(config, old(View()), CpuStep(i))
    {
      NextSafe(config, View(), CpuStep(i));
      assert Shape(config, View());
      hide Safe, Shape;
      match cpus[i].at
      case Top => CheckProc(i);
      case Yielded => GetProc(i, cpus[i], Recheck);
      case Recheck => RecheckProc(i);
    }

    // One round of the loops of `ld_routine` in time slot `now`, or its end: wait for the start
    // time of the next process, or load it.
    method LoaderTurn(now: nat) returns (waits: bool)
      requires Valid() && Enabled(View(), LoadStep) && |starts| == |config.jobs|
      modifies Repr()
      ensures Valid() && waits == (old(loaded) < |config.jobs| && now < starts[old(loaded)])
      ensures View() == if waits then old(View()) else Next(config, old(View()), LoadStep)
    {
      if loaded < |config.jobs| && now < starts[loaded] {
        return true;
      }
      NextSafe(config, View(), LoadStep);
      assert Shape(config, View());
      hide Safe, Shape, Enqueued;
      if loaded < |config.jobs| {
        sched.AddMlqProc(loaded, config.jobs[loaded].prio);
        loaded := loaded + 1;
      } else {
        done := true;
      }
      return false;
    }
  }
}
