/**
 * `ld_routine` (src/os.c) as device 0 of the barrier: the time slot in which each process of the
 * configuration is loaded, over every interleaving with the timer and the CPUs.
 */
module Loader {
  import opened Words
  import opened Timer

  /** `loads[i]` is the value of _time when process i was loaded; `loadedNow`: next_slot follows. */
  datatype LState = LState(bar: State, loads: seq<nat>, loadedNow: bool)

  datatype LStep = Other(st: Step) | LoaderStep

  predicate LEnabled(s: LState, st: LStep) {
    match st
    case Other(b) => b != Arrive(0) && b != Detach(0) && Enabled(s.bar, b)
    case LoaderStep => |s.bar.devs| > 0 && s.bar.devs[0].at == Running
  }

  function LNext(starts: seq<nat>, s: LState, st: LStep): LState
    requires LEnabled(s, st)
  {
    match st
    case Other(b) => s.(bar := Next(s.bar, b))
    case LoaderStep =>
      var i := |s.loads|;
      if s.loadedNow then s.(bar := Next(s.bar, Arrive(0)), loadedNow := false)
      else if i < |starts| then
        if s.bar.time < starts[i] then s.(bar := Next(s.bar, Arrive(0)))
        else s.(loads := s.loads + [s.bar.time], loadedNow := true)
      else s.(bar := Next(s.bar, Detach(0)))
  }

  predicate LCanRun(starts: seq<nat>, s: LState, steps: seq<LStep>)
    decreases |steps|
  {
    steps != [] ==> LEnabled(s, steps[0]) && LCanRun(starts, LNext(starts, s, steps[0]), steps[1..])
  }

  function LRun(starts: seq<nat>, s: LState, steps: seq<LStep>): LState
    requires LCanRun(starts, s, steps)
    decreases |steps|
  {
    if steps == [] then s else LRun(starts, LNext(starts, s, steps[0]), steps[1..])
  }

  /** The earliest slot for process i: one after its predecessor. */
  function Earliest(starts: seq<nat>, i: nat): nat
    requires i <= |starts|
    decreases i, 0
  {
    if i == 0 then 0 else LoadTime(starts, i - 1) + 1
  }

  function LoadTime(starts: seq<nat>, i: nat): nat
    requires i < |starts|
    decreases i, 1
  {
    Max(starts[i], Earliest(starts, i))
  }

  predicate OnTime(starts: seq<nat>, s: LState) {
    var n := |s.loads|;
    && Ok(s.bar) && |s.bar.devs| > 0 && n <= |starts|
    && (forall i :: 0 <= i < n ==> s.loads[i] == LoadTime(starts, i))
    && (s.bar.devs[0].at != Finished ==>
          var slot := s.bar.devs[0].arrived;
          if s.loadedNow then n > 0 && s.bar.devs[0].at == Running && slot == LoadTime(starts, n - 1)
          else slot >= Earliest(starts, n) && (n < |starts| ==> slot <= LoadTime(starts, n)))
    && (s.bar.devs[0].at == Finished ==> n == |starts|)
  }

  // The other threads neither end the loader's slot nor change its count of slots.
  lemma OtherLeavesLoader(s: State, st: Step)
    requires Ok(s) && |s.devs| > 0 && Enabled(s, st) && st != Arrive(0) && st != Detach(0)
    ensures var d, e := s.devs[0], Next(s, st).devs[0];
            e.arrived == d.arrived && (e.at == Finished <==> d.at == Finished) && (d.at == Running ==> e.at == Running)
  {
    assert DevOk(s, 0);
  }

  lemma StepOnTime(starts: seq<nat>, s: LState, st: LStep)
    requires OnTime(starts, s) && LEnabled(s, st)
    ensures OnTime(starts, LNext(starts, s, st))
  {
    assert DevOk(s.bar, 0);
    match st
    case Other(b) =>
      NextOk(s.bar, b);
      OtherLeavesLoader(s.bar, b);
    case LoaderStep =>
      NextOk(s.bar, Arrive(0));
      NextOk(s.bar, Detach(0));
  }

  lemma {:induction false} RunOnTime(starts: seq<nat>, s: LState, steps: seq<LStep>)
    requires OnTime(starts, s) && LCanRun(starts, s, steps)
    ensures OnTime(starts, LRun(starts, s, steps))
    decreases |steps|
  {
    if steps == [] {
    } else {
      StepOnTime(starts, s, steps[0]);
      RunOnTime(starts, LNext(starts, s, steps[0]), steps[1..]);
    }
  }

  lemma {:induction false} LaterLoads(starts: seq<nat>, i: nat, j: nat)
    requires i < j < |starts|
    ensures LoadTime(starts, i) < LoadTime(starts, j)
  {
    if i < j - 1 {
      LaterLoads(starts, i, j - 1);
    }
  }

  // While a process is still to be loaded, its slot has not passed.
  lemma NotOverdue(starts: seq<nat>, s: LState, i: nat)
    requires OnTime(starts, s) && |s.loads| <= i < |starts|
    ensures s.bar.time <= LoadTime(starts, i)
  {
    var n := |s.loads|;
    assert DevOk(s.bar, 0);
    if n < i {
      LaterLoads(starts, n, i);
    }
    if s.loadedNow {
      LaterLoads(starts, n - 1, n);
    }
  }

  // Process i is loaded exactly in slot L(i) = max(start(i), L(i-1) + 1), with L(0) = start(0): in
  // no other slot, and by the time that slot has passed. The loader detaches only after the last.
  lemma ExactLoadTimes(starts: seq<nat>, cpus: nat, steps: seq<LStep>, i: nat)
    requires LCanRun(starts, LState(Start(cpus + 1), [], false), steps)
    ensures var s := LRun(starts, LState(Start(cpus + 1), [], false), steps);
            && |s.loads| <= |starts| && |s.bar.devs| > 0
            && (i < |s.loads| ==> s.loads[i] == LoadTime(starts, i))
            && (i < |starts| && s.bar.time > LoadTime(starts, i) ==> i < |s.loads|)
            && (s.bar.devs[0].at == Finished ==> |s.loads| == |starts|)
    ensures i < |starts| ==> LoadTime(starts, i) == if i == 0 then starts[0] else Max(starts[i], LoadTime(starts, i - 1) + 1)
  {
    StartOk(cpus + 1);
    RunOnTime(starts, LState(Start(cpus + 1), [], false), steps);
    var s := LRun(starts, LState(Start(cpus + 1), [], false), steps);
    if |s.loads| <= i < |starts| {
      NotOverdue(starts, s, i);
    }
  }
}
