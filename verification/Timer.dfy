/**
 * The time-slot barrier of src/timer.c: one timer thread and N device threads. A step is one
 * critical section (or the code between two of them); waiting on a condition variable is a
 * program point that a signal, or a spurious wakeup, moves on from.
 */
module Timer {

  /** The timer thread. `Scan(i, fsh)` is about to lock device i's event_lock. */
  datatype TimerAt =
    | Head                         // at `while (!timer_stop)`
    | Scan(i: nat, fsh: nat)
    | WaitOn(i: nat, fsh: nat)     // in pthread_cond_wait on device i's event_cond
    | Release(i: nat)              // about to clear device i's done flag
    | Exited

  /** A device thread: in its slot, between the two sections of next_slot, in its wait, or detached. */
  datatype DevAt = Running | Arriving | Blocked | Finished

  /** `arrived` counts the calls of next_slot. */
  datatype Dev = Dev(at: DevAt, done: bool, fsh: bool, arrived: nat)

  datatype State = State(timer: TimerAt, time: nat, stop: bool, devs: seq<Dev>)

  datatype Step =
    | TimerStep
    | Arrive(d: nat)               // next_slot, first section: done = 1 and signal
    | TryPass(d: nat)              // next_slot, second section: test done
    | Detach(d: nat)               // detach_event
    | StopStep                     // stop_timer, after every device thread was joined
    | WakeTimer                    // spurious wakeups
    | WakeDevice(d: nat)

  predicate AllFinished(s: State) { forall d :: 0 <= d < |s.devs| ==> s.devs[d].at == Finished }

  predicate Enabled(s: State, st: Step) {
    match st
    case TimerStep => !s.timer.WaitOn? && !s.timer.Exited? && (s.timer.Scan? || s.timer.Release? ==> s.timer.i <= |s.devs|)
    case Arrive(d) => d < |s.devs| && s.devs[d].at == Running
    case TryPass(d) => d < |s.devs| && s.devs[d].at == Arriving
    case Detach(d) => d < |s.devs| && s.devs[d].at == Running
    case StopStep => AllFinished(s) && !s.stop
    case WakeTimer => s.timer.WaitOn?
    case WakeDevice(d) => d < |s.devs| && s.devs[d].at == Blocked
  }

  predicate Spurious(st: Step) { st.WakeTimer? || st.WakeDevice? }

  /** pthread_cond_signal on device d's event_cond. */
  function Signalled(t: TimerAt, d: nat): TimerAt {
    if t.WaitOn? && t.i == d then Scan(t.i, t.fsh) else t
  }

  function TimerNext(s: State): State
    requires Enabled(s, TimerStep)
  {
    match s.timer
    case Head => s.(timer := if s.stop then Exited else Scan(0, 0))
    case Scan(i, fsh) =>
      if i < |s.devs| then
        var dev := s.devs[i];
        s.(timer := if dev.done || dev.fsh then Scan(i + 1, if dev.fsh then fsh + 1 else fsh) else WaitOn(i, fsh))
      else if fsh == |s.devs| then s.(timer := Exited)
      else s.(time := s.time + 1, timer := Release(0))
    case Release(i) =>
      if i < |s.devs| then
        var dev := s.devs[i];
        s.(devs := s.devs[i := dev.(done := false, at := if dev.at == Blocked then Arriving else dev.at)], timer := Release(i + 1))
      else s.(timer := Head)
    case _ => s
  }

  function Next(s: State, st: Step): State
    requires Enabled(s, st)
  {
    match st
    case TimerStep => TimerNext(s)
    case Arrive(d) =>
      var dev := s.devs[d];
      s.(devs := s.devs[d := dev.(at := Arriving, done := true, arrived := dev.arrived + 1)], timer := Signalled(s.timer, d))
    case TryPass(d) => s.(devs := s.devs[d := s.devs[d].(at := if s.devs[d].done then Blocked else Running)])
    case Detach(d) =>
      s.(devs := s.devs[d := s.devs[d].(at := Finished, fsh := true)], timer := Signalled(s.timer, d))
    case StopStep => s.(stop := true)
    case WakeTimer => s.(timer := Scan(s.timer.i, s.timer.fsh))
    case WakeDevice(d) => s.(devs := s.devs[d := s.devs[d].(at := Arriving)])
  }

  function FreshDevs(n: nat): (devs: seq<Dev>)
    ensures |devs| == n && forall d :: 0 <= d < n ==> devs[d] == Dev(Running, false, false, 0)
  {
    if n == 0 then [] else FreshDevs(n - 1) + [Dev(Running, false, false, 0)]
  }

  /** n attach_event calls and start_timer. */
  function Start(n: nat): State { State(Head, 0, false, FreshDevs(n)) }

  predicate CanRun(s: State, steps: seq<Step>)
    decreases |steps|
  {
    steps != [] ==> Enabled(s, steps[0]) && CanRun(Next(s, steps[0]), steps[1..])
  }

  function Run(s: State, steps: seq<Step>): State
    requires CanRun(s, steps)
    decreases |steps|
  {
    if steps == [] then s else Run(Next(s, steps[0]), steps[1..])
  }

  // ---------- the invariant ----------

  /** The timer has advanced the time but not yet cleared device d's done flag. */
  predicate Pending(s: State, d: nat) { s.timer.Release? && s.timer.i <= d }

  predicate DevOk(s: State, d: nat)
    requires d < |s.devs|
  {
    var dev := s.devs[d];
    if dev.at == Finished then dev.fsh
    else
      !dev.fsh &&
      if Pending(s, d) then dev.at != Running && dev.done && dev.arrived == s.time
      else match dev.at
           case Running => !dev.done && dev.arrived == s.time
           case Arriving => dev.arrived == if dev.done then s.time + 1 else s.time
           case Blocked => dev.done && dev.arrived == s.time + 1
  }

  function FinishedBelow(s: State, i: nat): nat
    requires i <= |s.devs|
  {
    if i == 0 then 0 else FinishedBelow(s, i - 1) + (if s.devs[i - 1].at == Finished then 1 else 0)
  }

  predicate TimerOk(s: State) {
    match s.timer
    case Head => true
    case Scan(i, fsh) => i <= |s.devs| && Scanned(s, i, fsh)
    case WaitOn(i, fsh) => i < |s.devs| && Scanned(s, i, fsh) && !s.devs[i].done && !s.devs[i].fsh
    case Release(i) => i <= |s.devs|
    case Exited => AllFinished(s)
  }

  /** The scan has passed the devices below i, counting the finished ones. */
  predicate Scanned(s: State, i: nat, fsh: nat)
    requires i <= |s.devs|
  {
    fsh == FinishedBelow(s, i) && forall d :: 0 <= d < i ==> s.devs[d].fsh || s.devs[d].done
  }

  predicate Ok(s: State) {
    && (forall d :: 0 <= d < |s.devs| ==> DevOk(s, d))
    && TimerOk(s)
    && (s.stop ==> AllFinished(s))
  }

  lemma {:induction false} FinishedBound(s: State, i: nat)
    requires i <= |s.devs|
    ensures FinishedBelow(s, i) <= i
    ensures FinishedBelow(s, i) == i <==> forall d :: 0 <= d < i ==> s.devs[d].at == Finished
  {
    if i == 0 {
    } else {
      FinishedBound(s, i - 1);
    }
  }

  lemma {:induction false} FinishedSame(s: State, t: State, i: nat)
    requires i <= |s.devs| && i <= |t.devs|
    requires forall d :: 0 <= d < i ==> (s.devs[d].at == Finished <==> t.devs[d].at == Finished)
    ensures FinishedBelow(t, i) == FinishedBelow(s, i)
  {
    if i == 0 {
    } else {
      FinishedSame(s, t, i - 1);
    }
  }

  // What one device does leaves a scan of the others valid: a device that was passed cannot move.
  lemma ScanKept(s: State, t: State, i: nat, fsh: nat, d: nat)
    requires Ok(s) && |t.devs| == |s.devs| && i <= |s.devs| && Scanned(s, i, fsh)
    requires forall e :: 0 <= e < |s.devs| && e != d ==> t.devs[e] == s.devs[e]
    requires d < i ==> (t.devs[d].at == Finished <==> s.devs[d].at == Finished) && t.devs[d].done == s.devs[d].done && t.devs[d].fsh == s.devs[d].fsh
    ensures Scanned(t, i, fsh)
  {
    FinishedSame(s, t, i);
  }

  lemma NextDev(s: State, st: Step, d: nat)
    requires Ok(s) && Enabled(s, st) && d < |s.devs|
    ensures |Next(s, st).devs| == |s.devs| && DevOk(Next(s, st), d)
  {
    assert DevOk(s, d);
    if st == TimerStep && s.timer.Scan? && s.timer.i == |s.devs| {
      FinishedBound(s, s.timer.i);
    }
  }

  lemma TimerStepOk(s: State)
    requires Ok(s) && Enabled(s, TimerStep)
    ensures TimerOk(TimerNext(s))
  {
    if s.timer.Scan? {
      var i := s.timer.i;
      FinishedBound(s, i);
      FinishedSame(s, TimerNext(s), i);
      if i < |s.devs| {
        assert DevOk(s, i);
      }
    }
  }

  lemma DeviceStepOk(s: State, st: Step, d: nat)
    requires Ok(s) && Enabled(s, st) && (st == Arrive(d) || st == TryPass(d) || st == Detach(d) || st == WakeDevice(d))
    ensures TimerOk(Next(s, st))
  {
    assert DevOk(s, d);
    if s.timer.Scan? || s.timer.WaitOn? {
      ScanKept(s, Next(s, st), s.timer.i, s.timer.fsh, d);
    }
  }

  lemma NextOk(s: State, st: Step)
    requires Ok(s) && Enabled(s, st)
    ensures Ok(Next(s, st)) && |Next(s, st).devs| == |s.devs|
  {
    forall d | 0 <= d < |s.devs|
      ensures |Next(s, st).devs| == |s.devs| && DevOk(Next(s, st), d)
    {
      NextDev(s, st, d);
    }
    match st
    case TimerStep => TimerStepOk(s);
    case Arrive(d) => DeviceStepOk(s, st, d);
    case TryPass(d) => DeviceStepOk(s, st, d);
    case Detach(d) => DeviceStepOk(s, st, d);
    case WakeDevice(d) => DeviceStepOk(s, st, d);
    case StopStep =>
      if s.timer.Scan? || s.timer.WaitOn? { FinishedSame(s, Next(s, st), s.timer.i); }
    case WakeTimer => FinishedSame(s, Next(s, st), s.timer.i);
  }

  lemma StartOk(n: nat)
    ensures Ok(Start(n))
  {}

  lemma {:induction false} RunOk(s: State, steps: seq<Step>)
    requires Ok(s) && CanRun(s, steps)
    ensures Ok(Run(s, steps)) && |Run(s, steps).devs| == |s.devs|
    decreases |steps|
  {
    if steps == [] {
    } else {
      NextOk(s, steps[0]);
      RunOk(Next(s, steps[0]), steps[1..]);
    }
  }

  // ---------- lockstep ----------

  // In every interleaving every unfinished device has arrived exactly _time or _time + 1 times,
  // and exactly _time times while it executes its slot.
  lemma Lockstep(n: nat, steps: seq<Step>, d: nat)
    requires CanRun(Start(n), steps) && d < n
    ensures var s := Run(Start(n), steps);
            |s.devs| == n && (s.devs[d].at != Finished ==>
              (s.devs[d].arrived == s.time || s.devs[d].arrived == s.time + 1)
              && (s.devs[d].at == Running ==> s.devs[d].arrived == s.time))
  {
    StartOk(n);
    RunOk(Start(n), steps);
    assert DevOk(Run(Start(n), steps), d);
  }

  // The time advances by one, and only when every device has arrived in this slot or finished.
  lemma TickWhenAllArrived(s: State, st: Step)
    requires Ok(s) && Enabled(s, st) && Next(s, st).time != s.time
    ensures Next(s, st).time == s.time + 1
    ensures forall d :: 0 <= d < |s.devs| ==>
              s.devs[d].at == Finished || (s.devs[d].at != Running && s.devs[d].done && s.devs[d].arrived == s.time + 1)
  {
    forall d | 0 <= d < |s.devs|
      ensures s.devs[d].at == Finished || (s.devs[d].at != Running && s.devs[d].done && s.devs[d].arrived == s.time + 1)
    {
      assert DevOk(s, d);
    }
  }

  // While a device executes its slot, nothing the other threads do changes the time.
  lemma {:induction false} TimeStandsStill(s: State, steps: seq<Step>, d: nat)
    requires Ok(s) && CanRun(s, steps) && d < |s.devs| && s.devs[d].at == Running
    requires Arrive(d) !in steps && Detach(d) !in steps
    ensures var t := Run(s, steps);
            t.time == s.time && |t.devs| == |s.devs| && t.devs[d] == s.devs[d]
    decreases |steps|
  {
    if steps == [] {
    } else {
      NextOk(s, steps[0]);
      assert steps[0] in steps && forall st <- steps[1..] :: st in steps;
      if Next(s, steps[0]).time != s.time {
        TickWhenAllArrived(s, steps[0]);
      }
      assert DevOk(s, d);
      TimeStandsStill(Next(s, steps[0]), steps[1..], d);
    }
  }

  // ---------- no lost wakeup, no deadlock ----------

  // A waiting timer waits for something still to come, and so does a waiting device.
  lemma NoLostWakeup(n: nat, steps: seq<Step>)
    requires CanRun(Start(n), steps)
    ensures var s := Run(Start(n), steps);
            && |s.devs| == n
            && (s.timer.WaitOn? ==> s.timer.i < n && !s.devs[s.timer.i].done && !s.devs[s.timer.i].fsh
                                    && s.devs[s.timer.i].at != Blocked && s.devs[s.timer.i].at != Finished)
            && (forall d :: 0 <= d < n && s.devs[d].at == Blocked ==> s.devs[d].done)
  {
    StartOk(n);
    RunOk(Start(n), steps);
    var s := Run(Start(n), steps);
    if s.timer.WaitOn? {
      assert DevOk(s, s.timer.i);
    }
    forall d | 0 <= d < n && s.devs[d].at == Blocked
      ensures s.devs[d].done
    {
      assert DevOk(s, d);
    }
  }

  // Some step other than a spurious wakeup can be taken until the timer has exited, and the timer
  // exits only when every device has finished.
  lemma NoDeadlock(n: nat, steps: seq<Step>)
    requires CanRun(Start(n), steps)
    ensures var s := Run(Start(n), steps);
            (s.timer.Exited? ==> AllFinished(s)) && (!s.timer.Exited? ==> exists st :: Enabled(s, st) && !Spurious(st))
  {
    NoLostWakeup(n, steps);
    StartOk(n);
    RunOk(Start(n), steps);
    var s := Run(Start(n), steps);
    if s.timer.WaitOn? {
      var d := s.timer.i;
      assert if s.devs[d].at == Running then Enabled(s, Arrive(d)) else Enabled(s, TryPass(d));
      assert !Spurious(Arrive(d)) && !Spurious(TryPass(d));
    } else if !s.timer.Exited? {
      assert Enabled(s, TimerStep) && !Spurious(TimerStep);
    }
  }
}
