/**
 * The CPUs and the loader on the barrier: device 0 is the loader, device i + 1 is CPU i. A thread
 * works only while its device runs its slot, and every `next_slot` of its loop is one arrival.
 */
module Ticks {
  import opened Scheduling
  import opened Dispatch
  import opened Ownership
  import opened Quantum
  import opened Slots
  import Timer

  /** `calling`: devices whose thread has done its work and is about to call `next_slot`. */
  datatype World = World(os: Os, bar: Timer.State, calling: set<nat>)

  datatype Turn =
    | Barrier(b: Timer.Step)       // the timer, a device in its wait, a wakeup
    | NextSlot(d: nat)             // the first section of next_slot
    | CpuWork(i: nat)              // a stretch of cpu_routine
    | CpuExit(i: nat)              // detach_event after the loop
    | LoaderWork                   // a round of ld_routine
    | LoaderExit

  /** Device d is in its slot, and its thread has not finished its work there. */
  predicate InSlot(w: World, d: nat) { d < |w.bar.devs| && w.bar.devs[d].at == Timer.Running && d !in w.calling }

  predicate CanTurn(c: Config, w: World, t: Turn) {
    match t
    case Barrier(b) => !b.Arrive? && !b.Detach? && Timer.Enabled(w.bar, b)
    case NextSlot(d) => d in w.calling && Timer.Enabled(w.bar, Timer.Arrive(d))
    case CpuWork(i) => InSlot(w, i + 1) && Enabled(w.os, CpuStep(i))
    case CpuExit(i) => InSlot(w, i + 1) && i < |w.os.cpus| && w.os.cpus[i].at == Stopped
    case LoaderWork => InSlot(w, 0) && Enabled(w.os, LoadStep)
    case LoaderExit => InSlot(w, 0) && w.os.done
  }

  predicate Fitting(c: Config, starts: seq<nat>, w: World) {
    ConfigOk(c) && |starts| == |c.jobs| && Shape(c, w.os) && |w.bar.devs| == |w.os.cpus| + 1
  }

  /** The loader waits for the start time of the next process. */
  predicate Waits(c: Config, starts: seq<nat>, w: World)
    requires Fitting(c, starts, w)
  {
    w.os.loaded < |c.jobs| && w.bar.time < starts[w.os.loaded]
  }

  /** The step of the machine that the turn is, if it is one. */
  function OsStep(c: Config, starts: seq<nat>, w: World, t: Turn): seq<Step>
    requires Fitting(c, starts, w)
  {
    match t
    case CpuWork(i) => [CpuStep(i)]
    case LoaderWork => if Waits(c, starts, w) then [] else [LoadStep]
    case _ => []
  }

  function TurnOf(c: Config, starts: seq<nat>, w: World, t: Turn): World
    requires Fitting(c, starts, w) && CanTurn(c, w, t)
  {
    match t
    case Barrier(b) => w.(bar := Timer.Next(w.bar, b))
    case NextSlot(d) => w.(bar := Timer.Next(w.bar, Timer.Arrive(d)), calling := w.calling - {d})
    case CpuWork(i) =>
      w.(os := Next(c, w.os, CpuStep(i)),
         calling := if i < |w.os.cpus| && EndsSlot(w.os, CpuStep(i), i) then w.calling + {i + 1} else w.calling)
    case CpuExit(i) => w.(bar := Timer.Next(w.bar, Timer.Detach(i + 1)))
    case LoaderWork =>
      if Waits(c, starts, w) then w.(calling := w.calling + {0})
      else w.(os := Next(c, w.os, LoadStep), calling := if w.os.loaded < |c.jobs| then w.calling + {0} else w.calling)
    case LoaderExit => w.(bar := Timer.Next(w.bar, Timer.Detach(0)))
  }

  function Start(c: Config, cpus: nat): World { World(Boot(c, cpus), Timer.Start(cpus + 1), {}) }

  predicate CanTurns(c: Config, starts: seq<nat>, w: World, ts: seq<Turn>)
    decreases |ts|
  {
    ts != [] ==> Fitting(c, starts, w) && CanTurn(c, w, ts[0]) && CanTurns(c, starts, TurnOf(c, starts, w, ts[0]), ts[1..])
  }

  function Turns(c: Config, starts: seq<nat>, w: World, ts: seq<Turn>): World
    requires CanTurns(c, starts, w, ts)
    decreases |ts|
  {
    if ts == [] then w else Turns(c, starts, TurnOf(c, starts, w, ts[0]), ts[1..])
  }

  function OsSteps(c: Config, starts: seq<nat>, w: World, ts: seq<Turn>): seq<Step>
    requires CanTurns(c, starts, w, ts)
    decreases |ts|
  {
    if ts == [] then [] else OsStep(c, starts, w, ts[0]) + OsSteps(c, starts, TurnOf(c, starts, w, ts[0]), ts[1..])
  }

  // ---------- the invariant ----------

  ghost predicate Sane(c: Config, starts: seq<nat>, w: World) {
    && Fitting(c, starts, w) && Accounted(c, w.os) && Timer.Ok(w.bar)
    && (forall d <- w.calling :: d < |w.bar.devs| && w.bar.devs[d].at == Timer.Running)
  }

  /** The slots a device has completed: its arrivals, and the one it is about to make. */
  function Done(w: World, d: nat): nat
    requires d < |w.bar.devs|
  {
    w.bar.devs[d].arrived + (if d in w.calling then 1 else 0)
  }

  lemma StartSane(c: Config, starts: seq<nat>, cpus: nat)
    requires ConfigOk(c) && |starts| == |c.jobs|
    ensures Sane(c, starts, Start(c, cpus))
  {
    BootAccounted(c, cpus);
    Timer.StartOk(cpus + 1);
  }

  // A barrier step of the timer or of another device leaves a running device in its slot.
  lemma BarrierKeeps(s: Timer.State, b: Timer.Step, d: nat)
    requires Timer.Ok(s) && Timer.Enabled(s, b) && d < |s.devs|
    requires b != Timer.Arrive(d) && b != Timer.Detach(d)
    ensures var t := Timer.Next(s, b);
            |t.devs| == |s.devs| && t.devs[d].arrived == s.devs[d].arrived
            && (s.devs[d].at == Timer.Running ==> t.devs[d].at == Timer.Running)
  {
    assert Timer.DevOk(s, d);
  }

  lemma StepSane(c: Config, starts: seq<nat>, w: World, t: Turn)
    requires Sane(c, starts, w) && CanTurn(c, w, t)
    ensures Sane(c, starts, TurnOf(c, starts, w, t))
  {
    var u := TurnOf(c, starts, w, t);
    match t
    case Barrier(b) => BarSane(c, starts, w, b, u);
    case NextSlot(d) => BarSane(c, starts, w, Timer.Arrive(d), u);
    case CpuExit(i) => BarSane(c, starts, w, Timer.Detach(i + 1), u);
    case LoaderExit => BarSane(c, starts, w, Timer.Detach(0), u);
    case CpuWork(i) => OsSane(c, starts, w, CpuStep(i), u);
    case LoaderWork =>
      if !Waits(c, starts, w) {
        OsSane(c, starts, w, LoadStep, u);
      }
  }

  lemma BarSane(c: Config, starts: seq<nat>, w: World, b: Timer.Step, u: World)
    requires Sane(c, starts, w) && Timer.Enabled(w.bar, b) && u.os == w.os && u.bar == Timer.Next(w.bar, b)
    requires u.calling <= w.calling && (forall d <- u.calling :: b != Timer.Arrive(d) && b != Timer.Detach(d))
    ensures Sane(c, starts, u)
  {
    hide Accounted, Shape, ConfigOk;
    Timer.NextOk(w.bar, b);
    forall d <- u.calling
      ensures d < |u.bar.devs| && u.bar.devs[d].at == Timer.Running
    {
      BarrierKeeps(w.bar, b, d);
    }
  }

  lemma OsSane(c: Config, starts: seq<nat>, w: World, st: Step, u: World)
    requires Sane(c, starts, w) && Enabled(w.os, st) && u.os == Next(c, w.os, st) && u.bar == w.bar
    requires forall d <- u.calling :: d in w.calling || InSlot(w, d)
    ensures Sane(c, starts, u)
  {
    NextAccounted(c, w.os, st);
    if st.CpuStep? {
      CpuEffect(c, w.os, st.cpu);
    }
    hide Timer.Ok;
  }

  // A turn completes a slot of CPU i exactly when it is the step of the machine that ends it.
  lemma StepDone(c: Config, starts: seq<nat>, w: World, t: Turn, i: nat)
    requires Sane(c, starts, w) && CanTurn(c, w, t) && i < |w.os.cpus|
    ensures var u := TurnOf(c, starts, w, t);
            && i + 1 < |u.bar.devs|
            && Done(u, i + 1) == Done(w, i + 1) + (if t == CpuWork(i) && EndsSlot(w.os, CpuStep(i), i) then 1 else 0)
  {
    hide Accounted, Shape, ConfigOk, EndsSlot, Next;
    match t
    case Barrier(b) => BarrierKeeps(w.bar, b, i + 1);
    case NextSlot(d) =>
      if d != i + 1 {
        BarrierKeeps(w.bar, Timer.Arrive(d), i + 1);
      }
    case CpuExit(j) =>
      if j != i {
        BarrierKeeps(w.bar, Timer.Detach(j + 1), i + 1);
      }
    case LoaderExit => BarrierKeeps(w.bar, Timer.Detach(0), i + 1);
    case CpuWork(j) =>
    case LoaderWork =>
  }

  // ---------- whole runs ----------

  lemma {:induction false} TurnsSane(c: Config, starts: seq<nat>, w: World, ts: seq<Turn>)
    requires Sane(c, starts, w) && CanTurns(c, starts, w, ts)
    ensures Sane(c, starts, Turns(c, starts, w, ts)) && |Turns(c, starts, w, ts).os.cpus| == |w.os.cpus|
    decreases |ts|
  {
    if ts == [] {
    } else {
      StepSane(c, starts, w, ts[0]);
      SameCpus(c, starts, w, ts[0]);
      TurnsSane(c, starts, TurnOf(c, starts, w, ts[0]), ts[1..]);
    }
  }

  lemma SameCpus(c: Config, starts: seq<nat>, w: World, t: Turn)
    requires Sane(c, starts, w) && CanTurn(c, w, t)
    ensures |TurnOf(c, starts, w, t).os.cpus| == |w.os.cpus|
  {
    hide Accounted;
    if t.CpuWork? {
      CpuEffect(c, w.os, t.i);
    }
  }

  // The machine's part of a run is a run of the machine, and the slots of its CPUs are those
  // their devices complete.
  lemma {:induction false} MachinePart(c: Config, starts: seq<nat>, w: World, ts: seq<Turn>, i: nat)
    requires Sane(c, starts, w) && CanTurns(c, starts, w, ts) && i < |w.os.cpus|
    ensures var steps, u := OsSteps(c, starts, w, ts), Turns(c, starts, w, ts);
            && CanRun(c, w.os, steps) && RunSteps(c, w.os, steps) == u.os
            && i + 1 < |w.bar.devs| && i + 1 < |u.bar.devs| && Done(u, i + 1) == Done(w, i + 1) + SlotsOf(c, w.os, steps, i)
    decreases |ts|
  {
    if ts == [] {
    } else {
      var t, v := ts[0], TurnOf(c, starts, w, ts[0]);
      StepSane(c, starts, w, t);
      StepDone(c, starts, w, t, i);
      SameCpus(c, starts, w, t);
      MachinePart(c, starts, v, ts[1..], i);
      var one, rest := OsStep(c, starts, w, t), OsSteps(c, starts, v, ts[1..]);
      OneStep(c, starts, w, t);
      hide Sane, TurnOf, CanTurn, Done, CanTurns, OsStep;
      if one == [] {
        assert one + rest == rest;
      } else {
        PrependStep(c, w.os, one[0], rest, i);
      }
    }
  }

  lemma OneStep(c: Config, starts: seq<nat>, w: World, t: Turn)
    requires Sane(c, starts, w) && CanTurn(c, w, t)
    ensures var one, v := OsStep(c, starts, w, t), TurnOf(c, starts, w, t);
            if one == [] then v.os == w.os && !t.CpuWork?
            else one == [one[0]] && Enabled(w.os, one[0]) && v.os == Next(c, w.os, one[0])
                 && forall i :: t == CpuWork(i) <==> one[0] == CpuStep(i)
  {
    hide Accounted, Next, EndsSlot;
  }

  lemma PrependStep(c: Config, os: Os, st: Step, rest: seq<Step>, i: nat)
    requires ConfigOk(c) && Shape(c, os) && Enabled(os, st) && CanRun(c, Next(c, os, st), rest) && i < |os.cpus|
    ensures CanRun(c, os, [st] + rest) && RunSteps(c, os, [st] + rest) == RunSteps(c, Next(c, os, st), rest)
    ensures SlotsOf(c, os, [st] + rest, i) ==
            (if EndsSlot(os, st, i) then 1 else 0) + SlotsOf(c, Next(c, os, st), rest, i)
  {
    hide Next, EndsSlot;
    RunCons(c, os, st, rest);
    assert ([st] + rest)[0] == st && ([st] + rest)[1..] == rest;
  }

  // Slots and time: an unfinished device completes one slot per tick.
  lemma DoneIsTime(c: Config, starts: seq<nat>, w: World, d: nat)
    requires Sane(c, starts, w) && d < |w.bar.devs| && w.bar.devs[d].at != Timer.Finished
    ensures w.bar.time <= Done(w, d) <= w.bar.time + 1
  {
    assert Timer.DevOk(w.bar, d);
  }

  /** The process at position k of level q in state w is handed out during the turns. */
  predicate HandedOut(c: Config, starts: seq<nat>, w: World, ts: seq<Turn>, q: nat, k: nat)
    requires CanTurns(c, starts, w, ts) && CanRun(c, w.os, OsSteps(c, starts, w, ts))
    requires Valid(w.os.sched) && AllCallable(EventsOf(c, w.os, OsSteps(c, starts, w, ts)))
    requires q < MAX_PRIO && k < |w.os.sched.ready[q]|
  {
    Starvation.Dispatched(w.os.sched, EventsOf(c, w.os, OsSteps(c, starts, w, ts)), w.os.sched.ready[q][k])
  }

  lemma HandedOutInTicks(c: Config, starts: seq<nat>, w: World, ts: seq<Turn>, i: nat, q: nat, k: nat)
    requires Sane(c, starts, w) && CanTurns(c, starts, w, ts)
    requires i < |w.os.cpus| && q < MAX_PRIO && k < |w.os.sched.ready[q]|
    ensures var u, steps := Turns(c, starts, w, ts), OsSteps(c, starts, w, ts);
            && i + 1 < |u.bar.devs| && CanRun(c, w.os, steps) && AllCallable(EventsOf(c, w.os, steps))
            && (u.bar.devs[i + 1].at != Timer.Finished && u.bar.time > w.bar.time + CallBound(q, k) * Longest(c) + 1 ==>
                  HandedOut(c, starts, w, ts, q, k))
  {
    var u, steps := Turns(c, starts, w, ts), OsSteps(c, starts, w, ts);
    TurnsSane(c, starts, w, ts);
    MachinePart(c, starts, w, ts, i);
    DispatchedInSlots(c, w.os, steps, i, q, k);
    if u.bar.devs[i + 1].at != Timer.Finished {
      DoneIsTime(c, starts, u, i + 1);
      DoneAtMost(c, starts, w, u, ts, i);
    }
    hide Sane, Turns, OsSteps, CanRun, CanTurns, EventsOf, SlotsOf, Done, Longest, CallBound;
  }

  // At the start of a run the CPU has completed at most one slot more than the time says.
  lemma DoneAtMost(c: Config, starts: seq<nat>, w: World, u: World, ts: seq<Turn>, i: nat)
    requires Sane(c, starts, w) && CanTurns(c, starts, w, ts) && u == Turns(c, starts, w, ts)
    requires i < |w.os.cpus| && i + 1 < |w.bar.devs| && i + 1 < |u.bar.devs| && u.bar.devs[i + 1].at != Timer.Finished
    ensures Done(w, i + 1) <= w.bar.time + 1
  {
    if w.bar.devs[i + 1].at == Timer.Finished {
      StaysFinished(c, starts, w, ts, i + 1);
    } else {
      DoneIsTime(c, starts, w, i + 1);
    }
  }

  lemma {:induction false} StaysFinished(c: Config, starts: seq<nat>, w: World, ts: seq<Turn>, d: nat)
    requires CanTurns(c, starts, w, ts) && d < |w.bar.devs| && w.bar.devs[d].at == Timer.Finished
    ensures var u := Turns(c, starts, w, ts);
            d < |u.bar.devs| && u.bar.devs[d].at == Timer.Finished
    decreases |ts|
  {
    if ts == [] {
    } else {
      FinishedForGood(c, starts, w, ts[0], d);
      StaysFinished(c, starts, TurnOf(c, starts, w, ts[0]), ts[1..], d);
    }
  }

  lemma FinishedForGood(c: Config, starts: seq<nat>, w: World, t: Turn, d: nat)
    requires Fitting(c, starts, w) && CanTurn(c, w, t) && d < |w.bar.devs| && w.bar.devs[d].at == Timer.Finished
    ensures var u := TurnOf(c, starts, w, t);
            d < |u.bar.devs| && u.bar.devs[d].at == Timer.Finished
  {
    hide Next, EndsSlot, Shape, ConfigOk;
  }

  // No starvation, in ticks: from every state that timer, CPUs and loader can reach, in every
  // interleaving of their steps, the process at position k of level q is handed out before _time
  // has advanced by more than the bound on calls times the longest dispatch, plus one, as long as
  // some CPU is still at work.
  lemma NoStarvationInTicks(c: Config, starts: seq<nat>, cpus: nat, before: seq<Turn>, ts: seq<Turn>, i: nat, q: nat, k: nat)
    requires ConfigOk(c) && |starts| == |c.jobs| && q < MAX_PRIO && CanTurns(c, starts, Start(c, cpus), before)
    ensures var w := Turns(c, starts, Start(c, cpus), before);
            CanTurns(c, starts, w, ts) && i < |w.os.cpus| ==>
              var u, steps := Turns(c, starts, w, ts), OsSteps(c, starts, w, ts);
              && i + 1 < |u.bar.devs| && Valid(w.os.sched) && CanRun(c, w.os, steps) && AllCallable(EventsOf(c, w.os, steps))
              && (k < |w.os.sched.ready[q]| && u.bar.devs[i + 1].at != Timer.Finished
                  && u.bar.time > w.bar.time + CallBound(q, k) * Longest(c) + 1 ==>
                    HandedOut(c, starts, w, ts, q, k))
  {
    StartSane(c, starts, cpus);
    TurnsSane(c, starts, Start(c, cpus), before);
    var w := Turns(c, starts, Start(c, cpus), before);
    if CanTurns(c, starts, w, ts) && i < |w.os.cpus| {
      TurnsSane(c, starts, w, ts);
      MachinePart(c, starts, w, ts, i);
      SchedulerRun(c, w.os, OsSteps(c, starts, w, ts));
      if k < |w.os.sched.ready[q]| {
        HandedOutInTicks(c, starts, w, ts, i, q, k);
      }
      hide Turns, OsSteps, CanTurns, CanRun, EventsOf, HandedOut, CallBound, Longest, Accounted;
    }
  }

  // ---------- no run is left out ----------

  lemma {:induction false} Extend(c: Config, starts: seq<nat>, w: World, ts: seq<Turn>, t: Turn)
    requires Sane(c, starts, w) && CanTurns(c, starts, w, ts) && CanTurn(c, Turns(c, starts, w, ts), t)
    ensures CanTurns(c, starts, w, ts + [t])
    decreases |ts|
  {
    if ts == [] {
      assert ([] + [t])[0] == t && ([] + [t])[1..] == [];
    } else {
      assert (ts + [t])[0] == ts[0] && (ts + [t])[1..] == ts[1..] + [t];
      StepSane(c, starts, w, ts[0]);
      Extend(c, starts, TurnOf(c, starts, w, ts[0]), ts[1..], t);
    }
  }

  // From the start, every run can go on with every turn that some thread can take.
  lemma EveryTurnRuns(c: Config, starts: seq<nat>, cpus: nat, ts: seq<Turn>, t: Turn)
    requires ConfigOk(c) && |starts| == |c.jobs|
    requires CanTurns(c, starts, Start(c, cpus), ts) && CanTurn(c, Turns(c, starts, Start(c, cpus), ts), t)
    ensures CanTurns(c, starts, Start(c, cpus), ts + [t])
  {
    StartSane(c, starts, cpus);
    Extend(c, starts, Start(c, cpus), ts, t);
  }
}
