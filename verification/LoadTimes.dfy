/** The loader of the world on the barrier is the loader of `Loader`, and loads at the same times. */
module LoadTimes {
  import opened Dispatch
  import opened Ownership
  import opened Quantum
  import opened Ticks
  import opened Pace
  import Loader

  /** `loads`, followed by the values of _time at which the turns of a run load processes. */
  function LoadsAfter(c: Config, starts: seq<nat>, w: World, ts: seq<Turn>, loads: seq<nat>): seq<nat>
    requires CanTurns(c, starts, w, ts)
    decreases |ts|
  {
    if ts == [] then loads
    else
      var v := TurnOf(c, starts, w, ts[0]);
      LoadsAfter(c, starts, v, ts[1..], loads + (if v.os.loaded > w.os.loaded then [w.bar.time] else []))
  }

  /** `l` is the loader of the world: it has loaded as many, and calls next_slot when the world's does. */
  predicate LoaderAt(c: Config, starts: seq<nat>, w: World, l: Loader.LState)
    requires Fitting(c, starts, w)
  {
    && l.bar == w.bar && |l.loads| == w.os.loaded && (w.os.done ==> w.os.loaded == |c.jobs| && 0 !in w.calling)
    && (0 in w.calling <==> l.loadedNow || (0 in w.calling && Waits(c, starts, w)))
  }

  /** The step of the loader that a turn is, if it is one. */
  function LoaderPart(c: Config, starts: seq<nat>, w: World, t: Turn): seq<Loader.LStep>
    requires Fitting(c, starts, w)
  {
    match t
    case Barrier(b) => [Loader.Other(b)]
    case NextSlot(d) => if d == 0 then [Loader.LoaderStep] else [Loader.Other(Timer.Arrive(d))]
    case CpuExit(i) => [Loader.Other(Timer.Detach(i + 1))]
    case LoaderExit => [Loader.LoaderStep]
    case LoaderWork => if w.os.loaded < |c.jobs| && !Waits(c, starts, w) then [Loader.LoaderStep] else []
    case CpuWork(_) => []
  }

  // Every turn is a step of the loader's machine, or leaves the loader where it is.
  lemma LoaderTurn(c: Config, starts: seq<nat>, w: World, t: Turn, l: Loader.LState) returns (m: Loader.LState)
    requires Sane(c, starts, w) && CanTurn(c, w, t) && LoaderAt(c, starts, w, l) && Loader.OnTime(starts, l)
    ensures Loader.OnTime(starts, m) && Sane(c, starts, TurnOf(c, starts, w, t)) && LoaderAt(c, starts, TurnOf(c, starts, w, t), m)
    ensures var step := LoaderPart(c, starts, w, t);
            if step == [] then m == l else Loader.LEnabled(l, step[0]) && m == Loader.LNext(starts, l, step[0])
    ensures m.loads == l.loads + (if TurnOf(c, starts, w, t).os.loaded > w.os.loaded then [w.bar.time] else [])
  {
    StepSane(c, starts, w, t);
    var step := LoaderPart(c, starts, w, t);
    m := l;
    if step != [] {
      LoaderEnabled(c, starts, w, t, l);
      m := Loader.LNext(starts, l, step[0]);
      Loader.StepOnTime(starts, l, step[0]);
    }
    LoaderMoves(c, starts, w, t, l, m);
  }

  lemma LoaderEnabled(c: Config, starts: seq<nat>, w: World, t: Turn, l: Loader.LState)
    requires Sane(c, starts, w) && CanTurn(c, w, t) && LoaderAt(c, starts, w, l) && LoaderPart(c, starts, w, t) != []
    ensures Loader.LEnabled(l, LoaderPart(c, starts, w, t)[0])
  {
    hide Accounted, Shape;
  }

  lemma LoaderMoves(c: Config, starts: seq<nat>, w: World, t: Turn, l: Loader.LState, m: Loader.LState)
    requires Sane(c, starts, w) && CanTurn(c, w, t) && LoaderAt(c, starts, w, l) && Sane(c, starts, TurnOf(c, starts, w, t))
    requires var step := LoaderPart(c, starts, w, t);
             if step == [] then m == l else Loader.LEnabled(l, step[0]) && m == Loader.LNext(starts, l, step[0])
    ensures LoaderAt(c, starts, TurnOf(c, starts, w, t), m)
    ensures m.loads == l.loads + (if TurnOf(c, starts, w, t).os.loaded > w.os.loaded then [w.bar.time] else [])
  {
    var u := TurnOf(c, starts, w, t);
    assert l.loads + [] == l.loads;
    if 0 in w.calling {
      LoaderTime(c, starts, w, t);
    }
    if t.CpuWork? {
      CpuEffect(c, w.os, t.i);
      CpuKeepsLoader(c, w.os, t.i);
      hide Next;
    }
    hide Accounted, Shape;
  }

  // Time stands still while the loader is about to call next_slot.
  lemma LoaderTime(c: Config, starts: seq<nat>, w: World, t: Turn)
    requires Sane(c, starts, w) && CanTurn(c, w, t) && 0 in w.calling
    ensures TurnOf(c, starts, w, t).bar.time == w.bar.time
  {
    hide Accounted;
    if t.Barrier? && Timer.Next(w.bar, t.b).time != w.bar.time {
      Timer.TickWhenAllArrived(w.bar, t.b);
    }
  }

  lemma {:induction false} LoaderRun(c: Config, starts: seq<nat>, w: World, ts: seq<Turn>, l: Loader.LState) returns (m: Loader.LState)
    requires Sane(c, starts, w) && CanTurns(c, starts, w, ts) && LoaderAt(c, starts, w, l) && Loader.OnTime(starts, l)
    ensures Loader.OnTime(starts, m) && Sane(c, starts, Turns(c, starts, w, ts)) && LoaderAt(c, starts, Turns(c, starts, w, ts), m)
    ensures m.loads == LoadsAfter(c, starts, w, ts, l.loads)
    decreases |ts|
  {
    m := l;
    if ts == [] {
    } else {
      var k := LoaderTurn(c, starts, w, ts[0], l);
      m := LoaderRun(c, starts, TurnOf(c, starts, w, ts[0]), ts[1..], k);
    }
    hide Sane, LoaderAt, Loader.OnTime, TurnOf;
  }

  // The load times of `Loader` in every interleaving of timer, CPUs and loader.
  lemma LoadTimesOnBarrier(c: Config, starts: seq<nat>, cpus: nat, ts: seq<Turn>, i: nat)
    requires ConfigOk(c) && |starts| == |c.jobs| && CanTurns(c, starts, Start(c, cpus), ts)
    ensures var w, loads := Turns(c, starts, Start(c, cpus), ts), LoadsAfter(c, starts, Start(c, cpus), ts, []);
            && |loads| == w.os.loaded <= |starts| && |w.bar.devs| > 0
            && (i < |loads| ==> loads[i] == Loader.LoadTime(starts, i))
            && (i < |starts| && w.bar.time > Loader.LoadTime(starts, i) ==> i < w.os.loaded)
            && (w.bar.devs[0].at == Timer.Finished ==> w.os.loaded == |c.jobs|)
  {
    StartSane(c, starts, cpus);
    var w := Start(c, cpus);
    var l := Loader.LState(w.bar, [], false);
    var m := LoaderRun(c, starts, w, ts, l);
    var u := Turns(c, starts, w, ts);
    if |m.loads| <= i < |starts| {
      Loader.NotOverdue(starts, m, i);
    }
    hide Turns, CanTurns, LoadsAfter;
  }
}
