/** How many steps the threads of the barrier can take before the time advances. */
module TimerProgress {
  import opened Timer

  /** The steps device d can still take in the current slot. */
  function DevWork(s: State, d: nat): nat
    requires d < |s.devs|
  {
    var dev := s.devs[d];
    match dev.at
    case Finished => 0
    case Running => 4
    case Arriving => if Pending(s, d) then 6 else if dev.done then 1 else 5
    case Blocked => if Pending(s, d) then 5 else 0
  }

  function DevsWork(s: State, n: nat): nat
    requires n <= |s.devs|
  {
    if n == 0 then 0 else DevsWork(s, n - 1) + DevWork(s, n - 1)
  }

  function TimerWork(s: State): int {
    var n := |s.devs|;
    match s.timer
    case Release(i) => 3 * n - i + 3
    case Head => 2 * n + 2
    case Scan(i, _) => 2 * (n - i) + 1
    case WaitOn(i, _) => 2 * (n - i)
    case Exited => 0
  }

  function Work(s: State): int {
    DevsWork(s, |s.devs|) + TimerWork(s) + (if s.stop then 0 else 1)
  }

  lemma {:induction false} DevsWorkBound(s: State, n: nat)
    requires n <= |s.devs|
    ensures DevsWork(s, n) <= 6 * n
  {
    if n == 0 {
    } else {
      DevsWorkBound(s, n - 1);
    }
  }

  lemma WorkBound(s: State)
    requires Ok(s)
    ensures 0 <= Work(s) <= 9 * |s.devs| + 4
  {
    DevsWorkBound(s, |s.devs|);
  }

  lemma {:induction false} DevsWorkChange(s: State, t: State, d: nat, n: nat)
    requires n <= |s.devs| == |t.devs| && d < |s.devs|
    requires forall e :: 0 <= e < n && e != d ==> DevWork(t, e) == DevWork(s, e)
    ensures DevsWork(t, n) == DevsWork(s, n) + (if d < n then DevWork(t, d) - DevWork(s, d) else 0)
  {
    if n == 0 {
    } else {
      DevsWorkChange(s, t, d, n - 1);
    }
  }

  lemma {:induction false} DevsWorkSame(s: State, t: State, n: nat)
    requires n <= |s.devs| == |t.devs|
    requires forall e :: 0 <= e < n ==> DevWork(t, e) == DevWork(s, e)
    ensures DevsWork(t, n) == DevsWork(s, n)
  {
    if n == 0 {
    } else {
      DevsWorkSame(s, t, n - 1);
    }
  }

  lemma DeviceStepWorks(s: State, st: Step, d: nat)
    requires Ok(s) && Enabled(s, st) && (st == Arrive(d) || st == TryPass(d) || st == Detach(d))
    ensures Work(Next(s, st)) < Work(s)
  {
    assert DevOk(s, d);
    DevsWorkChange(s, Next(s, st), d, |s.devs|);
  }

  lemma TimerStepWorks(s: State)
    requires Ok(s) && Enabled(s, TimerStep) && TimerNext(s).time == s.time
    ensures Work(TimerNext(s)) < Work(s)
  {
    var t := TimerNext(s);
    if s.timer.Release? && s.timer.i < |s.devs| {
      assert DevOk(s, s.timer.i);
      DevsWorkChange(s, t, s.timer.i, |s.devs|);
    } else {
      DevsWorkSame(s, t, |s.devs|);
    }
  }

  // Every step but a spurious wakeup or a tick uses up some of the work.
  lemma StepWorks(s: State, st: Step)
    requires Ok(s) && Enabled(s, st) && !Spurious(st) && Next(s, st).time == s.time
    ensures Work(Next(s, st)) < Work(s)
  {
    match st
    case TimerStep => TimerStepWorks(s);
    case Arrive(d) => DeviceStepWorks(s, st, d);
    case TryPass(d) => DeviceStepWorks(s, st, d);
    case Detach(d) => DeviceStepWorks(s, st, d);
    case StopStep => DevsWorkSame(s, Next(s, st), |s.devs|);
  }

  lemma {:induction false} TimeGrows(s: State, steps: seq<Step>)
    requires CanRun(s, steps)
    ensures Run(s, steps).time >= s.time
    decreases |steps|
  {
    if steps == [] {
    } else {
      TimeGrows(Next(s, steps[0]), steps[1..]);
    }
  }

  lemma {:induction false} WorkedOff(s: State, steps: seq<Step>)
    requires Ok(s) && CanRun(s, steps) && (forall st <- steps :: !Spurious(st)) && Run(s, steps).time == s.time
    ensures |steps| <= Work(s)
    decreases |steps|
  {
    WorkBound(s);
    if steps == [] {
    } else {
      assert steps[0] in steps && forall st <- steps[1..] :: st in steps;
      NextOk(s, steps[0]);
      TimeGrows(Next(s, steps[0]), steps[1..]);
      StepWorks(s, steps[0]);
      WorkedOff(Next(s, steps[0]), steps[1..]);
    }
  }

  // No livelock: from any reachable state, at most 9n + 4 steps without a spurious wakeup pass
  // before the time advances (and by NoDeadlock there is always a next one until the timer exits).
  lemma RoundBound(n: nat, before: seq<Step>, steps: seq<Step>)
    requires CanRun(Start(n), before) && CanRun(Run(Start(n), before), steps)
    requires (forall st <- steps :: !Spurious(st)) && |steps| > 9 * n + 4
    ensures Run(Run(Start(n), before), steps).time > Run(Start(n), before).time
  {
    StartOk(n);
    RunOk(Start(n), before);
    var s := Run(Start(n), before);
    WorkBound(s);
    TimeGrows(s, steps);
    if Run(s, steps).time == s.time {
      WorkedOff(s, steps);
    }
  }

  // ---------- the end ----------

  /** The steps the timer still takes once all devices have finished. */
  function TimerLeft(s: State): int {
    var n := |s.devs|;
    match s.timer
    case Release(i) => 2 * n - i + 3
    case Head => n + 2
    case Scan(i, _) => n - i + 1
    case WaitOn(_, _) => 0
    case Exited => 0
  }

  function TimerSteps(steps: seq<Step>): nat {
    if steps == [] then 0 else (if steps[0].TimerStep? then 1 else 0) + TimerSteps(steps[1..])
  }

  // With all devices finished no step advances the time, and every step of the timer leaves it
  // fewer to take.
  lemma FinishedStep(s: State, st: Step)
    requires Ok(s) && AllFinished(s) && Enabled(s, st)
    ensures var t := Next(s, st);
            && AllFinished(t) && t.time == s.time
            && TimerLeft(t) + (if st.TimerStep? then 1 else 0) <= TimerLeft(s)
  {
    if s.timer.Scan? {
      FinishedBound(s, s.timer.i);
      assert s.timer.i < |s.devs| ==> DevOk(s, s.timer.i);
    }
    forall d | 0 <= d < |s.devs|
      ensures s.devs[d].fsh
    {
      assert DevOk(s, d);
    }
  }

  lemma TimerLeftBound(s: State)
    requires Ok(s) && AllFinished(s)
    ensures 0 <= TimerLeft(s) <= 2 * |s.devs| + 3 && (TimerLeft(s) == 0 <==> s.timer.Exited?)
  {
    assert s.timer.WaitOn? ==> DevOk(s, s.timer.i);
  }

  lemma {:induction false} FinishedRun(s: State, steps: seq<Step>)
    requires Ok(s) && AllFinished(s) && CanRun(s, steps)
    ensures var t := Run(s, steps);
            Ok(t) && AllFinished(t) && t.time == s.time && |t.devs| == |s.devs| && TimerLeft(t) + TimerSteps(steps) <= TimerLeft(s)
    decreases |steps|
  {
    if steps == [] {
    } else {
      NextOk(s, steps[0]);
      FinishedStep(s, steps[0]);
      FinishedRun(Next(s, steps[0]), steps[1..]);
    }
  }

  // From every reachable state in which all devices have finished: the time never changes again,
  // and the timer has exited once it has taken 2n + 3 more steps of its own.
  lemma TimeEnds(n: nat, before: seq<Step>, steps: seq<Step>)
    requires CanRun(Start(n), before)
    ensures var s := Run(Start(n), before);
            AllFinished(s) && CanRun(s, steps) ==>
              Run(s, steps).time == s.time && (TimerSteps(steps) >= 2 * n + 3 ==> Run(s, steps).timer.Exited?)
  {
    StartOk(n);
    RunOk(Start(n), before);
    var s := Run(Start(n), before);
    if AllFinished(s) && CanRun(s, steps) {
      FinishedRun(s, steps);
      TimerLeftBound(s);
      TimerLeftBound(Run(s, steps));
    }
  }

  // stop_timer ends the loop at its head, without another scan.
  lemma StopEnds(s: State)
    requires s.timer == Head && s.stop
    ensures TimerNext(s).timer.Exited? && TimerNext(s).time == s.time && TimerNext(s).devs == s.devs
  {}
}
