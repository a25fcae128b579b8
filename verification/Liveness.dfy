/** The world of timer, CPUs and loader neither blocks nor stalls before the timer has exited. */
module Liveness {
  import opened Scheduling
  import opened Dispatch
  import opened Ownership
  import opened Quantum
  import opened Slots
  import opened Ticks
  import opened Pace
  import TimerProgress

  /** Some thread can take a turn that is no spurious wakeup. */
  ghost predicate SomeTurn(c: Config, w: World) {
    exists t :: CanTurn(c, w, t) && !SpuriousTurn(t)
  }

  // A thread whose device is in its slot can always go on.
  lemma ThreadGoesOn(c: Config, starts: seq<nat>, w: World, d: nat) returns (t: Turn)
    requires Sane(c, starts, w) && d < |w.bar.devs| && w.bar.devs[d].at == Timer.Running
    ensures CanTurn(c, w, t) && !t.Barrier?
  {
    if d in w.calling {
      t := NextSlot(d);
    } else if d == 0 {
      t := if w.os.done then LoaderExit else LoaderWork;
    } else {
      t := if w.os.cpus[d - 1].at == Stopped then CpuExit(d - 1) else CpuWork(d - 1);
    }
    hide Accounted, Shape;
  }

  // In every reachable state in which the timer has not exited, some turn can be taken.
  lemma WorldNoDeadlock(c: Config, starts: seq<nat>, cpus: nat, ts: seq<Turn>)
    requires ConfigOk(c) && |starts| == |c.jobs| && CanTurns(c, starts, Start(c, cpus), ts)
    ensures var w := Turns(c, starts, Start(c, cpus), ts);
            !w.bar.timer.Exited? ==> SomeTurn(c, w)
  {
    StartSane(c, starts, cpus);
    TurnsSane(c, starts, Start(c, cpus), ts);
    var w := Turns(c, starts, Start(c, cpus), ts);
    hide Turns, CanTurns, Accounted, Shape;
    if w.bar.timer.WaitOn? {
      var d := w.bar.timer.i;
      assert Timer.DevOk(w.bar, d);
      if w.bar.devs[d].at == Timer.Running {
        var t := ThreadGoesOn(c, starts, w, d);
      } else {
        assert CanTurn(c, w, Barrier(Timer.TryPass(d))) && !Timer.Spurious(Timer.TryPass(d));
      }
    } else if !w.bar.timer.Exited? {
      assert CanTurn(c, w, Barrier(Timer.TimerStep)) && !Timer.Spurious(Timer.TimerStep);
    }
  }

  // ---------- no livelock ----------

  /** The stretches of its loop that the thread of device d can still go through in the current slot. */
  function ThreadWork(w: World, d: nat): nat
    requires d < |w.bar.devs| == |w.os.cpus| + 1
  {
    if w.bar.devs[d].at == Timer.Finished || Done(w, d) == w.bar.time + 1 then 0
    else if d == 0 then if w.os.done then 0 else 1
    else
      match w.os.cpus[d - 1].at
      case Top => 3
      case Yielded => 2
      case Recheck => 1
      case Stopped => 0
  }

  function ThreadsWork(w: World, n: nat): nat
    requires n <= |w.bar.devs| == |w.os.cpus| + 1
  {
    if n == 0 then 0 else ThreadsWork(w, n - 1) + ThreadWork(w, n - 1)
  }

  function WorldWork(w: World): int
    requires |w.bar.devs| == |w.os.cpus| + 1
  {
    TimerProgress.Work(w.bar) + ThreadsWork(w, |w.bar.devs|)
  }

  lemma {:induction false} ThreadsBound(w: World, n: nat)
    requires n <= |w.bar.devs| == |w.os.cpus| + 1
    ensures ThreadsWork(w, n) <= 3 * n
  {
    if n == 0 {
    } else {
      ThreadsBound(w, n - 1);
    }
  }

  lemma {:induction false} ThreadsLess(w: World, u: World, n: nat, d: nat)
    requires n <= |w.bar.devs| == |w.os.cpus| + 1 == |u.os.cpus| + 1 == |u.bar.devs|
    requires forall e :: 0 <= e < n ==> ThreadWork(u, e) <= ThreadWork(w, e)
    ensures ThreadsWork(u, n) <= ThreadsWork(w, n)
    ensures d < n && ThreadWork(u, d) < ThreadWork(w, d) ==> ThreadsWork(u, n) < ThreadsWork(w, n)
  {
    if n == 0 {
    } else {
      ThreadsLess(w, u, n - 1, d);
    }
  }

  // The barrier's own steps complete no slot of a thread, and use up the barrier's work.
  lemma BarWorks(c: Config, starts: seq<nat>, w: World, b: Timer.Step, u: World)
    requires Sane(c, starts, w) && Timer.Enabled(w.bar, b) && !Timer.Spurious(b) && u.os == w.os && u.bar == Timer.Next(w.bar, b)
    requires u.bar.time == w.bar.time && |u.bar.devs| == |w.bar.devs|
    requires forall d :: 0 <= d < |w.bar.devs| ==> BarKeepsDone(w, u, d)
    ensures WorldWork(u) < WorldWork(w)
  {
    hide Accounted, Shape, ConfigOk, Done;
    TimerProgress.StepWorks(w.bar, b);
    forall d | 0 <= d < |w.bar.devs|
      ensures ThreadWork(u, d) <= ThreadWork(w, d)
    {
      assert BarKeepsDone(w, u, d);
    }
    ThreadsLess(w, u, |w.bar.devs|, 0);
    hide ThreadWork, BarKeepsDone, TimerProgress.Work;
  }

  predicate BarKeepsDone(w: World, u: World, d: nat)
    requires d < |w.bar.devs| && |u.bar.devs| == |w.bar.devs|
  {
    u.bar.devs[d].at == Timer.Finished || (w.bar.devs[d].at != Timer.Finished && Done(u, d) == Done(w, d))
  }

  lemma BarTurnKeepsDone(c: Config, starts: seq<nat>, w: World, t: Turn, d: nat)
    requires Sane(c, starts, w) && CanTurn(c, w, t) && !t.CpuWork? && !t.LoaderWork? && d < |w.bar.devs|
    ensures var u := TurnOf(c, starts, w, t);
            |u.bar.devs| == |w.bar.devs| && BarKeepsDone(w, u, d)
  {
    hide Accounted, Shape, ConfigOk;
    match t
    case Barrier(b) => FinishesByDetach(w.bar, b, d); BarrierKeeps(w.bar, b, d);
    case NextSlot(e) =>
      FinishesByDetach(w.bar, Timer.Arrive(e), d);
      if e != d { BarrierKeeps(w.bar, Timer.Arrive(e), d); }
    case CpuExit(i) =>
      FinishesByDetach(w.bar, Timer.Detach(i + 1), d);
      if i + 1 != d { BarrierKeeps(w.bar, Timer.Detach(i + 1), d); }
    case LoaderExit =>
      FinishesByDetach(w.bar, Timer.Detach(0), d);
      if d != 0 { BarrierKeeps(w.bar, Timer.Detach(0), d); }
  }

  // The work of a thread in its slot uses up its own.
  lemma CpuWorks(c: Config, starts: seq<nat>, w: World, i: nat)
    requires Sane(c, starts, w) && CanTurn(c, w, CpuWork(i))
    ensures var u := TurnOf(c, starts, w, CpuWork(i));
            |u.os.cpus| == |w.os.cpus| && u.bar == w.bar && i + 1 < |w.bar.devs|
            && ThreadWork(u, i + 1) < ThreadWork(w, i + 1)
            && forall d :: 0 <= d < |w.bar.devs| && d != i + 1 ==> ThreadWork(u, d) == ThreadWork(w, d)
  {
    assert Timer.DevOk(w.bar, i + 1);
    CpuEffect(c, w.os, i);
    CpuKeepsLoader(c, w.os, i);
    CpuAdvances(c, w.os, i);
    hide Accounted, Shape, Next, EndsSlot;
  }

  /** How far a CPU is from the end of a round of its loop. */
  function Ahead(at: At): nat {
    match at
    case Top => 3
    case Yielded => 2
    case Recheck => 1
    case Stopped => 0
  }

  lemma CpuAdvances(c: Config, os: Os, i: nat)
    requires ConfigOk(c) && Shape(c, os) && Enabled(os, CpuStep(i))
    ensures var t := Next(c, os, CpuStep(i));
            |t.cpus| == |os.cpus| && (EndsSlot(os, CpuStep(i), i) || Ahead(t.cpus[i].at) < Ahead(os.cpus[i].at))
  {
    hide Get, Put;
  }

  lemma LoaderWorks(c: Config, starts: seq<nat>, w: World)
    requires Sane(c, starts, w) && CanTurn(c, w, LoaderWork)
    ensures var u := TurnOf(c, starts, w, LoaderWork);
            u.os.cpus == w.os.cpus && u.bar == w.bar && |w.bar.devs| > 0
            && ThreadWork(u, 0) < ThreadWork(w, 0)
            && forall d :: 0 < d < |w.bar.devs| ==> ThreadWork(u, d) == ThreadWork(w, d)
  {
    assert Timer.DevOk(w.bar, 0);
    hide Accounted, Shape;
  }

  /** A wakeup that no signal caused. */
  predicate SpuriousTurn(t: Turn) { t.Barrier? && Timer.Spurious(t.b) }

  lemma TurnWorks(c: Config, starts: seq<nat>, w: World, t: Turn)
    requires Sane(c, starts, w) && CanTurn(c, w, t) && !SpuriousTurn(t) && TurnOf(c, starts, w, t).bar.time == w.bar.time
    ensures var u := TurnOf(c, starts, w, t);
            |u.bar.devs| == |u.os.cpus| + 1 && WorldWork(u) < WorldWork(w)
  {
    var u := TurnOf(c, starts, w, t);
    StepSane(c, starts, w, t);
    SameCpus(c, starts, w, t);
    if t.CpuWork? {
      CpuWorks(c, starts, w, t.i);
      ThreadsLess(w, u, |w.bar.devs|, t.i + 1);
    } else if t.LoaderWork? {
      LoaderWorks(c, starts, w);
      ThreadsLess(w, u, |w.bar.devs|, 0);
    } else {
      BarTurnWorks(c, starts, w, t);
    }
    hide Sane, TurnOf, ThreadWork, TimerProgress.Work;
  }

  lemma BarTurnWorks(c: Config, starts: seq<nat>, w: World, t: Turn)
    requires Sane(c, starts, w) && CanTurn(c, w, t) && !SpuriousTurn(t) && !t.CpuWork? && !t.LoaderWork?
    requires TurnOf(c, starts, w, t).bar.time == w.bar.time
    ensures var u := TurnOf(c, starts, w, t);
            |u.bar.devs| == |u.os.cpus| + 1 && WorldWork(u) < WorldWork(w)
  {
    var u := TurnOf(c, starts, w, t);
    BarTurnKeepsDone(c, starts, w, t, 0);
    forall d | 0 <= d < |w.bar.devs|
      ensures BarKeepsDone(w, u, d)
    {
      BarTurnKeepsDone(c, starts, w, t, d);
    }
    hide BarKeepsDone, WorldWork, Accounted, Shape;
    BarWorks(c, starts, w, BarStep(t), u);
  }

  /** The step of the barrier that a turn is. */
  function BarStep(t: Turn): Timer.Step
    requires !t.CpuWork? && !t.LoaderWork?
  {
    match t
    case Barrier(b) => b
    case NextSlot(d) => Timer.Arrive(d)
    case CpuExit(i) => Timer.Detach(i + 1)
    case LoaderExit => Timer.Detach(0)
  }

  lemma WorldWorkBound(c: Config, starts: seq<nat>, w: World)
    requires Sane(c, starts, w)
    ensures 0 <= WorldWork(w) <= 12 * |w.bar.devs| + 4
  {
    hide Accounted, Shape;
    TimerProgress.WorkBound(w.bar);
    ThreadsBound(w, |w.bar.devs|);
  }

  lemma {:induction false} WorldTime(c: Config, starts: seq<nat>, w: World, ts: seq<Turn>)
    requires Sane(c, starts, w) && CanTurns(c, starts, w, ts)
    ensures Turns(c, starts, w, ts).bar.time >= w.bar.time
    decreases |ts|
  {
    if ts == [] {
    } else {
      StepSane(c, starts, w, ts[0]);
      TimeStep(c, starts, w, ts[0]);
      WorldTime(c, starts, TurnOf(c, starts, w, ts[0]), ts[1..]);
    }
  }

  lemma {:induction false} WorldWorkedOff(c: Config, starts: seq<nat>, w: World, ts: seq<Turn>)
    requires Sane(c, starts, w) && CanTurns(c, starts, w, ts) && (forall t <- ts :: !SpuriousTurn(t))
    requires Turns(c, starts, w, ts).bar.time == w.bar.time
    ensures |ts| <= WorldWork(w)
    decreases |ts|
  {
    WorldWorkBound(c, starts, w);
    if ts == [] {
    } else {
      var v := TurnOf(c, starts, w, ts[0]);
      assert ts[0] in ts && forall t <- ts[1..] :: t in ts;
      StepSane(c, starts, w, ts[0]);
      TimeStep(c, starts, w, ts[0]);
      WorldTime(c, starts, v, ts[1..]);
      TurnWorks(c, starts, w, ts[0]);
      hide WorldWork, TurnOf, SpuriousTurn;
      WorldWorkedOff(c, starts, v, ts[1..]);
    }
  }

  // No livelock: with n CPUs, at most 12(n + 1) + 4 turns other than spurious wakeups pass before
  // _time advances; and by WorldNoDeadlock there is always a next one until the timer has exited.
  lemma WorldRoundBound(c: Config, starts: seq<nat>, cpus: nat, before: seq<Turn>, ts: seq<Turn>)
    requires ConfigOk(c) && |starts| == |c.jobs| && CanTurns(c, starts, Start(c, cpus), before)
    ensures var w := Turns(c, starts, Start(c, cpus), before);
            CanTurns(c, starts, w, ts) && (forall t <- ts :: !SpuriousTurn(t)) && |ts| > 12 * (cpus + 1) + 4 ==>
              Turns(c, starts, w, ts).bar.time > w.bar.time
  {
    StartSane(c, starts, cpus);
    TurnsSane(c, starts, Start(c, cpus), before);
    var w := Turns(c, starts, Start(c, cpus), before);
    if CanTurns(c, starts, w, ts) && (forall t <- ts :: !SpuriousTurn(t)) {
      WorldWorkBound(c, starts, w);
      WorldTime(c, starts, w, ts);
      if Turns(c, starts, w, ts).bar.time == w.bar.time {
        WorldWorkedOff(c, starts, w, ts);
      }
    }
    hide Turns, CanTurns, WorldWork, SpuriousTurn, Accounted;
  }
}
