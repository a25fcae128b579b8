/** The barrier's shared variables updated in place, one method per critical section of src/timer.c. */
module Barrier {
  import opened Timer

  class Slots {
    const devs: array<Dev>
    var timer: TimerAt
    var time: nat
    var stop: bool

    ghost function View(): State
      reads this, devs
    {
      State(timer, time, stop, devs[..])
    }

    // n calls of `attach_event`, then `start_timer`.
    constructor (n: nat)
      ensures View() == Start(n) && fresh(devs)
    {
      var list := new Dev[n];
      for d := 0 to n
        invariant forall e :: 0 <= e < d ==> list[e] == Dev(Running, false, false, 0)
        modifies list
      {
        list[d] := Dev(Running, false, false, 0);
      }
      assert list[..] == FreshDevs(n);
      devs := list;
      timer, time, stop := Head, 0, false;
    }

    // `next_slot` under event_lock: report, and wake the timer if it waits for this device.
    method Arrive(d: nat)
      requires Enabled(View(), Step.Arrive(d))
      modifies this`timer, devs
      ensures View() == Next(old(View()), Step.Arrive(d))
    {
      var dev := devs[d];
      devs[d] := dev.(at := Arriving, done := true, arrived := dev.arrived + 1);
      SignalEvent(d);
    }

    method SignalEvent(d: nat)
      modifies this`timer
      ensures timer == Signalled(old(timer), d)
    {
      if timer.WaitOn? && timer.i == d {
        timer := Scan(timer.i, timer.fsh);
      }
    }

    // `next_slot` under timer_lock: go on, or wait while `done` is still set.
    method TryPass(d: nat) returns (passed: bool)
      requires Enabled(View(), Step.TryPass(d))
      modifies devs
      ensures View() == Next(old(View()), Step.TryPass(d)) && passed == !old(devs[d].done)
    {
      passed := !devs[d].done;
      devs[d] := devs[d].(at := if passed then Running else Blocked);
    }

    // `detach_event`.
    method Detach(d: nat)
      requires Enabled(View(), Step.Detach(d))
      modifies this`timer, devs
      ensures View() == Next(old(View()), Step.Detach(d))
    {
      devs[d] := devs[d].(at := Finished, fsh := true);
      SignalEvent(d);
    }

    // One critical section of `timer_routine`, or the code between its two loops.
    method TimerRound()
      requires Enabled(View(), TimerStep)
      modifies this`timer, this`time, devs
      ensures View() == Next(old(View()), TimerStep)
    {
      match timer
      case Head =>
        timer := if stop then Exited else Scan(0, 0);
      case Scan(i, fsh) =>
        if i < devs.Length {
          if !devs[i].done && !devs[i].fsh {
            timer := WaitOn(i, fsh);
          } else {
            timer := Scan(i + 1, if devs[i].fsh then fsh + 1 else fsh);
          }
        } else if fsh == devs.Length {
          timer := Exited;
        } else {
          time := time + 1;
          timer := Release(0);
        }
      case Release(i) =>
        if i < devs.Length {
          devs[i] := devs[i].(done := false, at := if devs[i].at == Blocked then Arriving else devs[i].at);
          timer := Release(i + 1);
        } else {
          timer := Head;
        }
      case _ =>
    }
  }
}
