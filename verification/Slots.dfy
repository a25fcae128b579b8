/**
 * The starvation bound in time slots. A CPU calls `next_slot` once a slot, and between two calls
 * of `get_mlq_proc` it can do so only as often as one dispatch lasts.
 */
module Slots {
  import opened Words
  import opened Scheduling
  import opened Dispatch
  import opened Ownership
  import opened Quantum

  /** The step of CPU i ends in a call of `next_slot`. */
  predicate EndsSlot(os: Os, st: Step, i: nat)
    requires Valid(os.sched) && i < |os.cpus|
  {
    st == CpuStep(i) &&
    match os.cpus[i].at
    case Top => os.cpus[i].proc.None? && Get(os.sched).1.None?
    case Recheck => os.cpus[i].proc.Some? || !os.done
    case _ => false
  }

  /** How many slots CPU i completes in a run. */
  function SlotsOf(c: Config, os: Os, steps: seq<Step>, i: nat): nat
    requires CanRun(c, os, steps)
    decreases |steps|
  {
    if steps == [] then 0
    else (if i < |os.cpus| && EndsSlot(os, steps[0], i) then 1 else 0) + SlotsOf(c, Next(c, os, steps[0]), steps[1..], i)
  }

  function MaxSize(jobs: seq<Job>): nat {
    if jobs == [] then 1 else Max(jobs[0].size, MaxSize(jobs[1..]))
  }

  /** The longest dispatch: time_slot, or a whole program when time_slot is not positive. */
  function Longest(c: Config): (n: nat)
    ensures n >= 1
  {
    if c.timeSlot >= 1 then c.timeSlot else Max(1, MaxSize(c.jobs))
  }

  lemma {:induction false} MaxSizeBound(jobs: seq<Job>, p: nat)
    requires p < |jobs|
    ensures jobs[p].size <= MaxSize(jobs)
  {
    if p == 0 {
    } else {
      MaxSizeBound(jobs[1..], p - 1);
    }
  }

  /** The slots that a CPU can still complete before it calls `get_mlq_proc`. */
  function SlotsLeft(c: Config, os: Os, cpu: Cpu): int
    requires CpuOk(c, cpu) && |os.pc| == |c.jobs|
  {
    if cpu.proc.None? then if cpu.at == Recheck then 1 else 0
    else
      var rest := c.jobs[cpu.proc.value].size - os.pc[cpu.proc.value];
      if cpu.at == Recheck && cpu.timeLeft == 0 then if c.timeSlot >= 1 then c.timeSlot else if rest >= 1 then rest else 1
      else if c.timeSlot >= 1 then cpu.timeLeft
      else rest
  }

  lemma SlotsLeftBound(c: Config, os: Os, i: nat)
    requires Accounted(c, os) && i < |os.cpus|
    ensures 0 <= SlotsLeft(c, os, os.cpus[i]) <= Longest(c)
  {
    assert CpuQuantum(c, os, os.cpus[i]);
    if os.cpus[i].proc.Some? {
      MaxSizeBound(c.jobs, os.cpus[i].proc.value);
    }
  }

  // What the CPU's own steps do to its remaining slots.
  lemma OwnSlots(c: Config, os: Os, i: nat)
    requires Accounted(c, os) && Enabled(os, CpuStep(i)) && i < |os.cpus|
    requires var t := Next(c, os, CpuStep(i)); Accounted(c, t) && i < |t.cpus|
    ensures var t := Next(c, os, CpuStep(i));
            (if EndsSlot(os, CpuStep(i), i) then 1 else 0) + SlotsLeft(c, t, t.cpus[i]) <=
            SlotsLeft(c, os, os.cpus[i]) + (if Fetches(c, os, i) then Longest(c) else 0)
  {
    var t := Next(c, os, CpuStep(i));
    assert CpuQuantum(c, os, os.cpus[i]);
    SlotsLeftBound(c, os, i);
    SlotsLeftBound(c, t, i);
    hide Safe, Get, Put, MaxSize, Executed, Upto, Accounted;
  }

  // The other threads leave them alone.
  lemma OtherSlots(c: Config, os: Os, st: Step, i: nat)
    requires Accounted(c, os) && Enabled(os, st) && i < |os.cpus| && st != CpuStep(i)
    ensures var t := Next(c, os, st);
            i < |t.cpus| && t.cpus[i] == os.cpus[i] && |t.pc| == |c.jobs|
            && SlotsLeft(c, t, t.cpus[i]) == SlotsLeft(c, os, os.cpus[i])
  {
    if st.CpuStep? {
      CpuEffect(c, os, st.cpu);
      NextPc(c, os, st.cpu);
      if os.cpus[st.cpu].proc.Some? {
        OthersKeepPc(c, os, st.cpu, i);
      }
      hide Next, Safe, Get, Put;
    }
  }

  lemma GetsAppend(a: seq<Event>, b: seq<Event>)
    requires |a| <= 1
    ensures Starvation.Gets(a + b) == Starvation.Gets(a) + Starvation.Gets(b)
  {
    if a == [] {
      assert a + b == b;
    } else {
      assert (a + b)[0] == a[0] && (a + b)[1..] == b && a[1..] == [];
    }
  }

  lemma StepSlots(c: Config, os: Os, st: Step, i: nat)
    requires Accounted(c, os) && Enabled(os, st) && i < |os.cpus|
    ensures var t := Next(c, os, st);
            && Accounted(c, t) && i < |t.cpus|
            && (if EndsSlot(os, st, i) then 1 else 0) + SlotsLeft(c, t, t.cpus[i]) <=
               SlotsLeft(c, os, os.cpus[i]) + Times(Starvation.Gets(EventOf(c, os, st)), Longest(c))
  {
    NextAccounted(c, os, st);
    EventGets(c, os, st);
    var gets := Starvation.Gets(EventOf(c, os, st));
    if st == CpuStep(i) {
      CpuEffect(c, os, i);
      OwnSlots(c, os, i);
    } else {
      OtherSlots(c, os, st, i);
    }
    hide Next, Accounted, Longest, SlotsLeft, EventOf, Fetches, EndsSlot, Starvation.Gets;
    Starvation.MulMono(if st == CpuStep(i) && Fetches(c, os, i) then 1 else 0, gets, Longest(c));
  }

  lemma EventGets(c: Config, os: Os, st: Step)
    requires ConfigOk(c) && Shape(c, os) && Enabled(os, st)
    ensures Starvation.Gets(EventOf(c, os, st)) == if st.CpuStep? && Fetches(c, os, st.cpu) then 1 else 0
  {
    assert [GetEvent][1..] == [];
    assert forall e: Event :: [e][1..] == [];
  }

  /** The bound on the slots of one CPU in a run. */
  predicate Within(c: Config, os: Os, steps: seq<Step>, i: nat)
    requires CanRun(c, os, steps) && Shape(c, os) && i < |os.cpus|
  {
    SlotsOf(c, os, steps, i) <= Times(Starvation.Gets(EventsOf(c, os, steps)), Longest(c)) + SlotsLeft(c, os, os.cpus[i])
  }

  lemma {:induction false} SlotsBound(c: Config, os: Os, steps: seq<Step>, i: nat)
    requires Accounted(c, os) && CanRun(c, os, steps) && i < |os.cpus|
    ensures Within(c, os, steps, i)
    decreases |steps|
  {
    if steps == [] {
      SlotsLeftBound(c, os, i);
    } else {
      StepSlots(c, os, steps[0], i);
      var t := Next(c, os, steps[0]);
      SlotsBound(c, t, steps[1..], i);
      hide Within, Next, CanRun;
      WithinStep(c, os, steps, i);
    }
  }

  lemma WithinStep(c: Config, os: Os, steps: seq<Step>, i: nat)
    requires Accounted(c, os) && steps != [] && CanRun(c, os, steps) && i < |os.cpus|
    requires var t := Next(c, os, steps[0]); Shape(c, t) && i < |t.cpus| && Within(c, t, steps[1..], i)
    ensures Within(c, os, steps, i)
  {
    var t := Next(c, os, steps[0]);
    StepSlots(c, os, steps[0], i);
    NextEvent(c, os, steps[0]);
    FirstStep(c, os, steps, i);
    hide Next, Accounted, Longest, SlotsLeft, EventOf, EventsOf, EndsSlot, SlotsOf, CanRun, Starvation.Gets, Times, Shape, Valid;
    WithinChain(c, os, steps, i, SlotsOf(c, t, steps[1..], i), SlotsLeft(c, t, t.cpus[i]), EventOf(c, os, steps[0]), EventsOf(c, t, steps[1..]));
  }

  lemma WithinChain(c: Config, os: Os, steps: seq<Step>, i: nat, slots: nat, left: int, es: seq<Event>, rest: seq<Event>)
    requires steps != [] && CanRun(c, os, steps) && Shape(c, os) && i < |os.cpus| && |es| <= 1
    requires var e := if EndsSlot(os, steps[0], i) then 1 else 0;
             SlotsOf(c, os, steps, i) == e + slots && e + left <= SlotsLeft(c, os, os.cpus[i]) + Times(Starvation.Gets(es), Longest(c))
    requires EventsOf(c, os, steps) == es + rest && slots <= Times(Starvation.Gets(rest), Longest(c)) + left
    ensures Within(c, os, steps, i)
  {
    hide Longest, SlotsLeft, EventsOf, EndsSlot, SlotsOf, CanRun, Starvation.Gets, Times, Shape;
    GetsAppend(es, rest);
    MulAdd(Starvation.Gets(es), Starvation.Gets(rest), Longest(c));
  }

  lemma FirstStep(c: Config, os: Os, steps: seq<Step>, i: nat)
    requires steps != [] && CanRun(c, os, steps) && i < |os.cpus|
    ensures var t := Next(c, os, steps[0]);
            && SlotsOf(c, os, steps, i) == (if EndsSlot(os, steps[0], i) then 1 else 0) + SlotsOf(c, t, steps[1..], i)
            && EventsOf(c, os, steps) == EventOf(c, os, steps[0]) + EventsOf(c, t, steps[1..])
  {
    hide Next, EventOf, EndsSlot;
  }

  function Times(a: nat, m: nat): nat { a * m }

  lemma MulAdd(a: nat, b: nat, m: nat)
    ensures Times(a + b, m) == Times(a, m) + Times(b, m)
  {}

  lemma FewGets(gets: nat, bound: nat, m: nat)
    requires gets < bound
    ensures Times(gets, m) + m <= bound * m
  {
    MulAdd(gets, 1, m);
    Starvation.MulMono(gets + 1, bound, m);
  }

  /** Calls of `get_mlq_proc` within which the process at position k of level q is handed out. */
  function CallBound(q: nat, k: nat): nat
    requires q < MAX_PRIO
  {
    (k + 1) * (2 * Starvation.Settings(q))
  }

  lemma DispatchedInSlots(c: Config, os: Os, steps: seq<Step>, i: nat, q: nat, k: nat)
    requires Accounted(c, os) && CanRun(c, os, steps) && i < |os.cpus| && q < MAX_PRIO && k < |os.sched.ready[q]|
    ensures AllCallable(EventsOf(c, os, steps))
    ensures SlotsOf(c, os, steps, i) > CallBound(q, k) * Longest(c) ==>
              Starvation.Dispatched(os.sched, EventsOf(c, os, steps), os.sched.ready[q][k])
  {
    SchedulerRun(c, os, steps);
    SlotsBound(c, os, steps, i);
    SlotsLeftBound(c, os, i);
    var gets := Starvation.Gets(EventsOf(c, os, steps));
    if gets < CallBound(q, k) {
      FewGets(gets, CallBound(q, k), Longest(c));
    }
    Quantum.NoStarvation(c, os, steps, q, k);
    hide Accounted, SlotsLeft, Longest, Starvation.Gets, EventsOf, SlotsOf, CanRun;
  }

  // No starvation, in time slots: from every reachable state, in every interleaving, the process
  // at position k of level q is handed out before any CPU has completed more slots than the bound
  // on calls times the longest dispatch.
  lemma NoStarvationInSlots(c: Config, cpus: nat, before: seq<Step>, steps: seq<Step>, i: nat, q: nat, k: nat)
    requires ConfigOk(c) && CanRun(c, Boot(c, cpus), before) && q < MAX_PRIO
    ensures var os := RunSteps(c, Boot(c, cpus), before);
            CanRun(c, os, steps) ==>
            && Valid(os.sched) && AllCallable(EventsOf(c, os, steps))
            && (i < |os.cpus| && k < |os.sched.ready[q]| && SlotsOf(c, os, steps, i) > CallBound(q, k) * Longest(c) ==>
                  Starvation.Dispatched(os.sched, EventsOf(c, os, steps), os.sched.ready[q][k]))
  {
    BootAccounted(c, cpus);
    RunAccounted(c, Boot(c, cpus), before);
    var os := RunSteps(c, Boot(c, cpus), before);
    if CanRun(c, os, steps) {
      SchedulerRun(c, os, steps);
      if i < |os.cpus| && k < |os.sched.ready[q]| {
        DispatchedInSlots(c, os, steps, i, q, k);
      }
    }
    hide Accounted, RunSteps, CanRun, EventsOf, SlotsOf;
  }
}
