/** When the threads leave their loops, and how fast they go: at most one instruction a time slot. */
module Pace {
  import opened Words
  import opened Queues
  import opened Scheduling
  import opened Dispatch
  import opened Ownership
  import opened Quantum
  import opened Slots
  import opened Ticks

  // ---------- leaving ----------

  /** The loader is done only after the last process, and no CPU stops before. */
  predicate LeavesLate(c: Config, os: Os) {
    && (os.done ==> os.loaded == |c.jobs|)
    && (forall i :: 0 <= i < |os.cpus| && os.cpus[i].at == Stopped ==> os.done)
  }

  lemma StepLeaves(c: Config, os: Os, st: Step)
    requires ConfigOk(c) && Shape(c, os) && Enabled(os, st) && LeavesLate(c, os)
    ensures LeavesLate(c, Next(c, os, st))
  {
    hide Get, Put, Valid;
  }

  lemma {:induction false} RunLeaves(c: Config, os: Os, steps: seq<Step>)
    requires CanRun(c, os, steps) && LeavesLate(c, os)
    ensures LeavesLate(c, RunSteps(c, os, steps))
    decreases |steps|
  {
    if steps == [] {
    } else {
      StepLeaves(c, os, steps[0]);
      RunLeaves(c, Next(c, os, steps[0]), steps[1..]);
    }
  }

  // In every run, a CPU that has stopped has done so after the last process was loaded.
  lemma StopsAfterLastLoad(c: Config, cpus: nat, steps: seq<Step>, i: nat)
    requires ConfigOk(c) && CanRun(c, Boot(c, cpus), steps)
    ensures var os := RunSteps(c, Boot(c, cpus), steps);
            i < |os.cpus| && os.cpus[i].at == Stopped ==> os.done && os.loaded == |c.jobs|
  {
    assert LeavesLate(c, Boot(c, cpus));
    RunLeaves(c, Boot(c, cpus), steps);
  }

  // A CPU that finds no process at the recheck stops in this step if the loader is done, and else
  // ends its slot and looks again; nothing else changes.
  lemma IdleCpu(c: Config, os: Os, i: nat)
    requires ConfigOk(c) && Shape(c, os) && i < |os.cpus| && os.cpus[i].at == Recheck && os.cpus[i].proc.None?
    ensures var t := Next(c, os, CpuStep(i));
            && |t.cpus| == |os.cpus| && t.cpus[i].proc.None?
            && (t.cpus[i].at == Stopped <==> os.done) && (t.cpus[i].at == Top && EndsSlot(os, CpuStep(i), i) <==> !os.done)
            && t.sched == os.sched && t.pc == os.pc && t.finished == os.finished && t.loaded == os.loaded && t.done == os.done
            && forall j :: 0 <= j < |os.cpus| && j != i ==> t.cpus[j] == os.cpus[j]
  {}

  /** A finished device is that of a thread that has left its loop. */
  predicate DetachesLate(c: Config, w: World) {
    && LeavesLate(c, w.os) && |w.bar.devs| == |w.os.cpus| + 1
    && (w.bar.devs[0].at == Timer.Finished ==> w.os.done)
    && (forall i :: 0 <= i < |w.os.cpus| && w.bar.devs[i + 1].at == Timer.Finished ==> w.os.cpus[i].at == Stopped)
  }

  // Only its own detach_event finishes a device.
  lemma FinishesByDetach(s: Timer.State, b: Timer.Step, d: nat)
    requires Timer.Enabled(s, b) && d < |s.devs|
    ensures var t := Timer.Next(s, b);
            |t.devs| == |s.devs|
            && (t.devs[d].at == Timer.Finished <==> s.devs[d].at == Timer.Finished || b == Timer.Detach(d))
  {}

  lemma TurnDetaches(c: Config, starts: seq<nat>, w: World, t: Turn)
    requires Sane(c, starts, w) && CanTurn(c, w, t) && DetachesLate(c, w)
    ensures DetachesLate(c, TurnOf(c, starts, w, t))
  {
    match t
    case Barrier(b) => BarDetaches(c, w, b);
    case NextSlot(d) => BarDetaches(c, w, Timer.Arrive(d));
    case CpuExit(i) => BarDetaches(c, w, Timer.Detach(i + 1));
    case LoaderExit => BarDetaches(c, w, Timer.Detach(0));
    case CpuWork(i) => OsDetaches(c, w, CpuStep(i));
    case LoaderWork =>
      if !Waits(c, starts, w) {
        OsDetaches(c, w, LoadStep);
      }
  }

  lemma BarDetaches(c: Config, w: World, b: Timer.Step)
    requires DetachesLate(c, w) && Timer.Enabled(w.bar, b)
    requires b == Timer.Detach(0) ==> w.os.done
    requires forall i :: 0 <= i < |w.os.cpus| && b == Timer.Detach(i + 1) ==> w.os.cpus[i].at == Stopped
    ensures forall calling :: DetachesLate(c, World(w.os, Timer.Next(w.bar, b), calling))
  {
    forall d | 0 <= d < |w.bar.devs|
      ensures var t := Timer.Next(w.bar, b);
              |t.devs| == |w.bar.devs|
              && (t.devs[d].at == Timer.Finished <==> w.bar.devs[d].at == Timer.Finished || b == Timer.Detach(d))
    {
      FinishesByDetach(w.bar, b, d);
    }
    hide LeavesLate, Timer.Next, Timer.Enabled;
  }

  lemma OsDetaches(c: Config, w: World, st: Step)
    requires DetachesLate(c, w) && ConfigOk(c) && Shape(c, w.os) && Enabled(w.os, st)
    ensures forall calling :: DetachesLate(c, World(Next(c, w.os, st), w.bar, calling))
  {
    StepLeaves(c, w.os, st);
    if st.CpuStep? {
      CpuEffect(c, w.os, st.cpu);
    }
    assert w.os.done ==> Next(c, w.os, st).done by { hide Get, Put; }
    hide LeavesLate, Next, Get, Put;
  }

  lemma {:induction false} TurnsDetach(c: Config, starts: seq<nat>, w: World, ts: seq<Turn>)
    requires Sane(c, starts, w) && CanTurns(c, starts, w, ts) && DetachesLate(c, w)
    ensures DetachesLate(c, Turns(c, starts, w, ts))
    decreases |ts|
  {
    if ts == [] {
    } else {
      StepSane(c, starts, w, ts[0]);
      TurnDetaches(c, starts, w, ts[0]);
      TurnsDetach(c, starts, TurnOf(c, starts, w, ts[0]), ts[1..]);
    }
  }

  // On the barrier: a device finishes only after the last process was loaded, and that of a CPU
  // only when the CPU has stopped.
  lemma FinishesAfterLastLoad(c: Config, starts: seq<nat>, cpus: nat, ts: seq<Turn>, d: nat)
    requires ConfigOk(c) && |starts| == |c.jobs| && CanTurns(c, starts, Start(c, cpus), ts)
    ensures var w := Turns(c, starts, Start(c, cpus), ts);
            d < |w.bar.devs| && w.bar.devs[d].at == Timer.Finished ==>
              w.os.done && w.os.loaded == |c.jobs| && (d > 0 ==> d <= |w.os.cpus| && w.os.cpus[d - 1].at == Stopped)
  {
    StartSane(c, starts, cpus);
    assert DetachesLate(c, Start(c, cpus));
    TurnsDetach(c, starts, Start(c, cpus), ts);
    var w := Turns(c, starts, Start(c, cpus), ts);
    if 0 < d < |w.bar.devs| && w.bar.devs[d].at == Timer.Finished {
      assert w.os.cpus[d - 1].at == Stopped;
    }
    hide Turns, CanTurns;
  }

  lemma CpuKeepsLoader(c: Config, os: Os, i: nat)
    requires ConfigOk(c) && Shape(c, os) && Enabled(os, CpuStep(i))
    ensures var t := Next(c, os, CpuStep(i));
            t.done == os.done && t.loaded == os.loaded
  {
    hide Get, Put;
  }

  // ---------- one instruction a slot ----------

  /** The turn is one of CPU i and executes an instruction: the log of executed ones grows. */
  predicate Runs(c: Config, starts: seq<nat>, w: World, t: Turn, i: nat)
    requires Fitting(c, starts, w) && CanTurn(c, w, t)
  {
    t == CpuWork(i) && TurnOf(c, starts, w, t).os.log != w.os.log
  }

  /** How many instructions CPU i executes in a run. */
  function RunsOf(c: Config, starts: seq<nat>, w: World, ts: seq<Turn>, i: nat): nat
    requires CanTurns(c, starts, w, ts)
    decreases |ts|
  {
    if ts == [] then 0
    else (if Runs(c, starts, w, ts[0], i) then 1 else 0) + RunsOf(c, starts, TurnOf(c, starts, w, ts[0]), ts[1..], i)
  }

  // An instruction completes the slot of its CPU, which holds the process before and after.
  lemma RunsCompletes(c: Config, starts: seq<nat>, w: World, t: Turn, i: nat)
    requires Sane(c, starts, w) && CanTurn(c, w, t) && i < |w.os.cpus| && Runs(c, starts, w, t, i)
    ensures var u := TurnOf(c, starts, w, t);
            && i + 1 < |w.bar.devs| && i + 1 < |u.bar.devs| && i < |u.os.cpus|
            && Done(u, i + 1) == Done(w, i + 1) + 1 == w.bar.time + 1 && u.bar.time == w.bar.time
            && w.os.cpus[i].proc.Some? && u.os.cpus[i].proc == w.os.cpus[i].proc
            && u.os.pc == w.os.pc[w.os.cpus[i].proc.value := w.os.pc[w.os.cpus[i].proc.value] + 1]
  {
    StepDone(c, starts, w, t, i);
    NextPc(c, w.os, i);
    CpuEffect(c, w.os, i);
    assert Timer.DevOk(w.bar, i + 1);
    hide Next, Accounted, Get, Put;
  }

  lemma {:induction false} InstructionsAndSlots(c: Config, starts: seq<nat>, w: World, ts: seq<Turn>, i: nat)
    requires Sane(c, starts, w) && CanTurns(c, starts, w, ts) && i < |w.os.cpus|
    ensures var u := Turns(c, starts, w, ts);
            i + 1 < |w.bar.devs| && i + 1 < |u.bar.devs| && RunsOf(c, starts, w, ts, i) <= Done(u, i + 1) - Done(w, i + 1)
    decreases |ts|
  {
    if ts == [] {
    } else {
      var t, v := ts[0], TurnOf(c, starts, w, ts[0]);
      StepSane(c, starts, w, t);
      SameCpus(c, starts, w, t);
      StepDone(c, starts, w, t, i);
      if Runs(c, starts, w, t, i) {
        RunsCompletes(c, starts, w, t, i);
      }
      hide Runs, TurnOf, Sane;
      InstructionsAndSlots(c, starts, v, ts[1..], i);
    }
  }

  // Between two states of a run, a CPU executes at most as many instructions as its device
  // completes slots: at most one from one arrival to the next.
  lemma OneInstructionPerSlot(c: Config, starts: seq<nat>, cpus: nat, before: seq<Turn>, ts: seq<Turn>, i: nat)
    requires ConfigOk(c) && |starts| == |c.jobs| && CanTurns(c, starts, Start(c, cpus), before)
    ensures var w := Turns(c, starts, Start(c, cpus), before);
            CanTurns(c, starts, w, ts) && i < |w.os.cpus| ==>
              var u := Turns(c, starts, w, ts);
              i + 1 < |w.bar.devs| && i + 1 < |u.bar.devs| && RunsOf(c, starts, w, ts, i) <= Done(u, i + 1) - Done(w, i + 1)
  {
    StartSane(c, starts, cpus);
    TurnsSane(c, starts, Start(c, cpus), before);
    var w := Turns(c, starts, Start(c, cpus), before);
    if CanTurns(c, starts, w, ts) && i < |w.os.cpus| {
      InstructionsAndSlots(c, starts, w, ts, i);
    }
    hide Turns, CanTurns, RunsOf;
  }

  // ---------- one instruction of a process a tick ----------

  /** The CPU that holds process p has completed the current slot. */
  ghost predicate HasRun(w: World, p: Pid) {
    exists i :: 0 <= i < |w.os.cpus| && HoldsDone(w, p, i)
  }

  predicate HoldsDone(w: World, p: Pid, i: nat)
    requires i < |w.os.cpus|
  {
    w.os.cpus[i].proc == Some(p) && i + 1 < |w.bar.devs| && Done(w, i + 1) == w.bar.time + 1
  }

  /** The allowance of a process: one instruction a tick, and one for a slot not yet used. */
  ghost function Used(w: World, p: Pid): int
    requires p < |w.os.pc|
  {
    w.os.pc[p] - w.bar.time - (if HasRun(w, p) then 1 else 0)
  }

  // While time stands still, a CPU that has completed its slot keeps the process.
  lemma KeepsProcess(c: Config, starts: seq<nat>, w: World, t: Turn, p: Pid, i: nat)
    requires Sane(c, starts, w) && CanTurn(c, w, t) && i < |w.os.cpus| && HoldsDone(w, p, i)
    requires TurnOf(c, starts, w, t).bar.time == w.bar.time
    ensures HasRun(TurnOf(c, starts, w, t), p)
  {
    var u := TurnOf(c, starts, w, t);
    assert Timer.DevOk(w.bar, i + 1);
    assert t != CpuWork(i);
    StepDone(c, starts, w, t, i);
    if t.CpuWork? {
      CpuEffect(c, w.os, t.i);
    }
    assert |u.os.cpus| == |w.os.cpus| && u.os.cpus[i] == w.os.cpus[i] by { hide Accounted; }
    hide TurnOf, Sane, Done;
    assert HoldsDone(u, p, i);
  }

  lemma TimeStep(c: Config, starts: seq<nat>, w: World, t: Turn)
    requires Sane(c, starts, w) && CanTurn(c, w, t)
    ensures var u := TurnOf(c, starts, w, t);
            |u.os.pc| == |w.os.pc| && (u.bar.time == w.bar.time || (u.bar.time == w.bar.time + 1 && u.os == w.os))
  {
    hide Accounted;
    if t.CpuWork? {
      CpuEffect(c, w.os, t.i);
      hide Next;
    }
  }

  lemma PaceStep(c: Config, starts: seq<nat>, w: World, t: Turn, p: Pid)
    requires Sane(c, starts, w) && CanTurn(c, w, t) && p < |c.jobs|
    ensures var u := TurnOf(c, starts, w, t);
            |w.os.pc| == |u.os.pc| == |c.jobs| && Used(u, p) <= Used(w, p)
  {
    var u := TurnOf(c, starts, w, t);
    TimeStep(c, starts, w, t);
    if t.CpuWork? && t.i < |w.os.cpus| && Runs(c, starts, w, t, t.i) {
      RunsCompletes(c, starts, w, t, t.i);
      if w.os.cpus[t.i].proc == Some(p) {
        FirstRunInSlot(c, starts, w, t.i, p);
        assert HoldsDone(u, p, t.i);
      } else {
        PaceKept(c, starts, w, t, p);
      }
    } else {
      SamePc(c, starts, w, t);
      PaceKept(c, starts, w, t, p);
    }
  }

  // A CPU in its slot has not completed it, and no other CPU holds its process.
  lemma FirstRunInSlot(c: Config, starts: seq<nat>, w: World, i: nat, p: Pid)
    requires Sane(c, starts, w) && i < |w.os.cpus| && InSlot(w, i + 1) && w.os.cpus[i].proc == Some(p)
    ensures !HasRun(w, p)
  {
    assert Timer.DevOk(w.bar, i + 1);
    forall j | 0 <= j < |w.os.cpus|
      ensures !HoldsDone(w, p, j)
    {
      if j != i {
        OthersKeepPc(c, w.os, i, j);
      }
    }
  }

  lemma SamePc(c: Config, starts: seq<nat>, w: World, t: Turn)
    requires Sane(c, starts, w) && CanTurn(c, w, t)
    requires t.CpuWork? ==> !(t.i < |w.os.cpus| && Runs(c, starts, w, t, t.i))
    ensures TurnOf(c, starts, w, t).os.pc == w.os.pc
  {
    hide Accounted;
    if t.CpuWork? {
      NextPc(c, w.os, t.i);
      hide Next;
    }
  }

  lemma PaceKept(c: Config, starts: seq<nat>, w: World, t: Turn, p: Pid)
    requires Sane(c, starts, w) && CanTurn(c, w, t) && p < |c.jobs|
    requires p < |TurnOf(c, starts, w, t).os.pc| && TurnOf(c, starts, w, t).os.pc[p] == w.os.pc[p]
    ensures Used(TurnOf(c, starts, w, t), p) <= Used(w, p)
  {
    TimeStep(c, starts, w, t);
    var u := TurnOf(c, starts, w, t);
    if u.bar.time == w.bar.time && HasRun(w, p) {
      var i :| 0 <= i < |w.os.cpus| && HoldsDone(w, p, i);
      KeepsProcess(c, starts, w, t, p, i);
    }
    hide TurnOf;
  }

  lemma {:induction false} PaceRun(c: Config, starts: seq<nat>, w: World, ts: seq<Turn>, p: Pid)
    requires Sane(c, starts, w) && CanTurns(c, starts, w, ts) && p < |c.jobs|
    ensures var u := Turns(c, starts, w, ts);
            |w.os.pc| == |u.os.pc| == |c.jobs| && Used(u, p) <= Used(w, p)
    decreases |ts|
  {
    if ts == [] {
    } else {
      StepSane(c, starts, w, ts[0]);
      PaceStep(c, starts, w, ts[0], p);
      hide Used, TurnOf;
      PaceRun(c, starts, TurnOf(c, starts, w, ts[0]), ts[1..], p);
    }
  }

  // In every interleaving of timer, CPUs and loader, between any two states a process executes at
  // most one instruction for each tick of _time and one more, whichever CPUs hold it.
  lemma OneInstructionPerTick(c: Config, starts: seq<nat>, cpus: nat, before: seq<Turn>, ts: seq<Turn>, p: Pid)
    requires ConfigOk(c) && |starts| == |c.jobs| && CanTurns(c, starts, Start(c, cpus), before) && p < |c.jobs|
    ensures var w := Turns(c, starts, Start(c, cpus), before);
            CanTurns(c, starts, w, ts) ==>
              var u := Turns(c, starts, w, ts);
              |w.os.pc| == |u.os.pc| == |c.jobs| && u.os.pc[p] - w.os.pc[p] <= u.bar.time - w.bar.time + 1
  {
    StartSane(c, starts, cpus);
    TurnsSane(c, starts, Start(c, cpus), before);
    var w := Turns(c, starts, Start(c, cpus), before);
    if CanTurns(c, starts, w, ts) {
      PaceRun(c, starts, w, ts, p);
    }
    hide Turns, CanTurns, HasRun;
  }

  // ---------- one look into the queues a slot ----------

  /** The turn is one of CPU i in which it calls get_mlq_proc. */
  predicate Looks(w: World, t: Turn, c: Config, i: nat)
    requires Shape(c, w.os) && i < |w.os.cpus|
  {
    t == CpuWork(i) && Fetches(c, w.os, i)
  }

  function LooksOf(c: Config, starts: seq<nat>, w: World, ts: seq<Turn>, i: nat): nat
    requires CanTurns(c, starts, w, ts)
    decreases |ts|
  {
    if ts == [] then 0
    else
      (if i < |w.os.cpus| && Looks(w, ts[0], c, i) then 1 else 0)
      + LooksOf(c, starts, TurnOf(c, starts, w, ts[0]), ts[1..], i)
  }

  /** The slots of CPU i completed so far, and the current one if it is past its look. */
  function Begun(w: World, i: nat): nat
    requires i < |w.os.cpus| && i + 1 < |w.bar.devs|
  {
    Done(w, i + 1) + (if w.os.cpus[i].at == Recheck || w.os.cpus[i].at == Stopped then 1 else 0)
  }

  lemma LookStep(c: Config, starts: seq<nat>, w: World, t: Turn, i: nat)
    requires Sane(c, starts, w) && CanTurn(c, w, t) && i < |w.os.cpus|
    ensures var u := TurnOf(c, starts, w, t);
            && i < |u.os.cpus| && i + 1 < |w.bar.devs| && i + 1 < |u.bar.devs|
            && Begun(w, i) + (if Looks(w, t, c, i) then 1 else 0) <= Begun(u, i)
  {
    StepDone(c, starts, w, t, i);
    SameCpus(c, starts, w, t);
    if t.CpuWork? {
      CpuEffect(c, w.os, t.i);
      if t.i == i {
        LookOrEnd(c, w.os, i);
      }
      hide Next;
    }
    hide Accounted, EndsSlot, Fetches, Done;
  }

  // A step of a CPU before the recheck that looks into the queues leads to the recheck or ends the
  // slot, and every step from the recheck ends the slot or the loop.
  lemma LookOrEnd(c: Config, os: Os, i: nat)
    requires ConfigOk(c) && Shape(c, os) && Enabled(os, CpuStep(i))
    ensures var t, ends := Next(c, os, CpuStep(i)), EndsSlot(os, CpuStep(i), i);
            && |t.cpus| == |os.cpus|
            && (Fetches(c, os, i) ==> os.cpus[i].at != Recheck && (t.cpus[i].at == Recheck || ends))
            && (os.cpus[i].at == Recheck ==> ends || t.cpus[i].at == Stopped)
  {
    hide Get, Put;
  }

  // Between two states a CPU calls get_mlq_proc at most once for every slot it completes, and once
  // more.
  lemma {:induction false} OneLookPerSlot(c: Config, starts: seq<nat>, w: World, ts: seq<Turn>, i: nat)
    requires Sane(c, starts, w) && CanTurns(c, starts, w, ts) && i < |w.os.cpus|
    ensures var u := Turns(c, starts, w, ts);
            && i < |u.os.cpus| && i + 1 < |w.bar.devs| && i + 1 < |u.bar.devs|
            && LooksOf(c, starts, w, ts, i) <= Begun(u, i) - Begun(w, i) <= Done(u, i + 1) - Done(w, i + 1) + 1
    decreases |ts|
  {
    if ts == [] {
    } else {
      StepSane(c, starts, w, ts[0]);
      LookStep(c, starts, w, ts[0], i);
      hide Looks, TurnOf, Sane;
      OneLookPerSlot(c, starts, TurnOf(c, starts, w, ts[0]), ts[1..], i);
    }
  }

  // A CPU that has no process at the head of its loop and is given none completes a slot and
  // stands there again, whether the loader is done or not.
  lemma IdleCpuSpins(c: Config, os: Os, i: nat)
    requires ConfigOk(c) && Shape(c, os) && i < |os.cpus| && os.cpus[i].at == Top && os.cpus[i].proc.None?
    requires Get(os.sched).1.None?
    ensures var t := Next(c, os, CpuStep(i));
            t.cpus == os.cpus && EndsSlot(os, CpuStep(i), i) && t.done == os.done && t.pc == os.pc
  {
    hide Get;
  }

  // ---------- the loader ends ----------

  function LoadSteps(steps: seq<Step>): nat {
    if steps == [] then 0 else (if steps[0].LoadStep? then 1 else 0) + LoadSteps(steps[1..])
  }

  lemma LoadStepCounts(c: Config, os: Os, st: Step)
    requires ConfigOk(c) && Shape(c, os) && Enabled(os, st) && (os.done ==> os.loaded == |c.jobs|)
    ensures var t := Next(c, os, st);
            && (t.done ==> t.loaded == |c.jobs|)
            && t.loaded + (if t.done then 1 else 0) == os.loaded + (if os.done then 1 else 0) + (if st.LoadStep? then 1 else 0)
  {
    hide Get, Put;
  }

  // The loader loads a process in each of its rounds, and is done after one more.
  lemma {:induction false} LoaderCounts(c: Config, os: Os, steps: seq<Step>)
    requires CanRun(c, os, steps) && (os.done ==> os.loaded == |c.jobs|)
    ensures var t := RunSteps(c, os, steps);
            && (t.done ==> t.loaded == |c.jobs|)
            && t.loaded + (if t.done then 1 else 0) == os.loaded + (if os.done then 1 else 0) + LoadSteps(steps)
    decreases |steps|
  {
    if steps == [] {
    } else {
      LoadStepCounts(c, os, steps[0]);
      LoaderCounts(c, Next(c, os, steps[0]), steps[1..]);
    }
  }
}
