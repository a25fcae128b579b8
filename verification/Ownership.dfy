/** Who owns a process: one CPU, one ready queue, or (after an enqueue on a full queue) nobody. */
module Ownership {
  import opened Words
  import opened Queues
  import opened Scheduling
  import opened Dispatch

  /** How many CPUs hold p. */
  function CpuCount(cpus: seq<Cpu>, p: Pid): nat {
    if cpus == [] then 0 else (if cpus[0].proc == Some(p) then 1 else 0) + CpuCount(cpus[1..], p)
  }

  /** How often p stands in the ready queues. */
  function ReadyCount(ready: seq<seq<Pid>>, p: Pid): nat {
    if ready == [] then 0 else multiset(ready[0])[p] + ReadyCount(ready[1..], p)
  }

  function Owners(os: Os, p: Pid): nat { CpuCount(os.cpus, p) + ReadyCount(os.sched.ready, p) }

  /** Loaded and not reported finished. */
  predicate Unfinished(os: Os, p: Pid) { p < os.loaded && p !in os.finished }

  function Due(os: Os, p: Pid): nat { if Unfinished(os, p) then 1 else 0 }

  lemma {:induction false} CpuUpdate(cpus: seq<Cpu>, i: nat, cpu: Cpu, p: Pid)
    requires i < |cpus|
    ensures CpuCount(cpus[i := cpu], p) + (if cpus[i].proc == Some(p) then 1 else 0) ==
            CpuCount(cpus, p) + (if cpu.proc == Some(p) then 1 else 0)
  {
    if i == 0 {
      assert cpus[i := cpu][1..] == cpus[1..];
    } else {
      assert cpus[i := cpu][1..] == cpus[1..][i - 1 := cpu];
      CpuUpdate(cpus[1..], i - 1, cpu, p);
    }
  }

  lemma {:induction false} ReadyUpdate(ready: seq<seq<Pid>>, q: nat, x: seq<Pid>, p: Pid)
    requires q < |ready|
    ensures ReadyCount(ready[q := x], p) + multiset(ready[q])[p] == ReadyCount(ready, p) + multiset(x)[p]
  {
    if q == 0 {
      assert ready[q := x][1..] == ready[1..];
    } else {
      assert ready[q := x][1..] == ready[1..][q - 1 := x];
      ReadyUpdate(ready[1..], q - 1, x, p);
    }
  }

  lemma ReadyAtLeast(ready: seq<seq<Pid>>, q: nat, p: Pid)
    requires q < |ready|
    ensures ReadyCount(ready, p) >= multiset(ready[q])[p]
  {
    ReadyUpdate(ready, q, [], p);
  }

  lemma CpuAtLeast(cpus: seq<Cpu>, i: nat, p: Pid)
    requires i < |cpus| && cpus[i].proc == Some(p)
    ensures CpuCount(cpus, p) >= 1
  {
    CpuUpdate(cpus, i, cpus[i].(proc := None), p);
  }

  // get_mlq_proc takes the process it returns out of the queues, and no other.
  lemma GetCount(s: Sched, p: Pid)
    requires Valid(s)
    ensures ReadyCount(Get(s).0.ready, p) + (if Get(s).1 == Some(p) then 1 else 0) == ReadyCount(s.ready, p)
  {
    var (slot, level) := Scan(s.ready, s.slot, 0);
    if level.Some? {
      var q := s.ready[level.value];
      assert q == [q[0]] + q[1..];
      ReadyUpdate(s.ready, level.value, q[1..], p);
    }
  }

  lemma EnqueueCount(ready: seq<seq<Pid>>, q: nat, x: Pid, p: Pid)
    requires q < |ready|
    ensures ReadyCount(ready[q := Enqueued(ready[q], x)], p) ==
            ReadyCount(ready, p) + (if x == p && |ready[q]| < MAX_QUEUE_SIZE then 1 else 0)
  {
    ReadyUpdate(ready, q, Enqueued(ready[q], x), p);
  }

  /** No process has two owners, or an owner before it is loaded or after it has finished. */
  ghost predicate AtMostOne(os: Os) { forall p :: Owners(os, p) <= Due(os, p) }

  /** The process a step adds to a queue, and that queue: the loader's, a put's, or the running list. */
  predicate Overflows(c: Config, os: Os, st: Step)
    requires ConfigOk(c) && Shape(c, os) && Enabled(os, st)
  {
    match st
    case LoadStep => os.loaded < |c.jobs| && |os.sched.ready[c.jobs[os.loaded].prio]| >= MAX_QUEUE_SIZE
    case CpuStep(i) =>
      if Yields(c, os, i) then |os.sched.ready[c.jobs[os.cpus[i].proc.value].prio]| >= MAX_QUEUE_SIZE
      else Fetches(c, os, i) && Get(os.sched).1.Some? && |os.sched.running| >= MAX_QUEUE_SIZE
  }

  predicate Finishes(c: Config, os: Os, i: nat)
    requires Shape(c, os) && i < |os.cpus|
  {
    var cpu := os.cpus[i];
    cpu.at == Top && cpu.proc.Some? && os.pc[cpu.proc.value] == c.jobs[cpu.proc.value].size
  }

  predicate Yields(c: Config, os: Os, i: nat)
    requires Shape(c, os) && i < |os.cpus|
  {
    os.cpus[i].at == Top && os.cpus[i].proc.Some? && !Finishes(c, os, i) && os.cpus[i].timeLeft == 0
  }

  predicate Fetches(c: Config, os: Os, i: nat)
    requires Shape(c, os) && i < |os.cpus|
  {
    os.cpus[i].at == Yielded || (os.cpus[i].at == Top && os.cpus[i].proc.None?) || Finishes(c, os, i)
  }

  /** Owners that process p loses in the step: a finished process, or one dropped by a full queue. */
  function Left(c: Config, os: Os, st: Step, p: Pid): nat
    requires ConfigOk(c) && Shape(c, os) && Enabled(os, st)
  {
    if st.CpuStep? && os.cpus[st.cpu].proc == Some(p)
       && (Finishes(c, os, st.cpu) || (Yields(c, os, st.cpu) && Overflows(c, os, st))) then 1 else 0
  }

  function Came(c: Config, os: Os, st: Step, p: Pid): nat
    requires ConfigOk(c) && Shape(c, os) && Enabled(os, st)
  {
    if st.LoadStep? && p == os.loaded < |c.jobs| && !Overflows(c, os, st) then 1 else 0
  }

  // What a step of a CPU does to the scheduler and to the process the CPU holds.
  lemma CpuEffect(c: Config, os: Os, i: nat)
    requires ConfigOk(c) && Shape(c, os) && Enabled(os, CpuStep(i))
    ensures var t := Next(c, os, CpuStep(i)); var p := os.cpus[i].proc;
            && |t.cpus| == |os.cpus| && t.cpus == os.cpus[i := t.cpus[i]] && |t.pc| == |os.pc| && t.loaded == os.loaded
            && t.finished == (if Finishes(c, os, i) then os.finished + {p.value} else os.finished)
            && (Yields(c, os, i) ==> t.cpus[i].proc == None && t.sched == Put(os.sched, p.value, c.jobs[p.value].prio))
            && (Fetches(c, os, i) ==> t.cpus[i].proc == Get(os.sched).1 && t.sched == Get(os.sched).0)
            && (!Yields(c, os, i) && !Fetches(c, os, i) ==> t.cpus[i].proc == p && t.sched == os.sched)
            && (t.cpus[i].at == Yielded || t.cpus[i].at == Stopped ==> t.cpus[i].proc.None?)
  {
    hide Get, Put;
  }

  lemma NextOwners(c: Config, os: Os, st: Step, p: Pid)
    requires ConfigOk(c) && Shape(c, os) && Enabled(os, st)
    ensures Owners(Next(c, os, st), p) + Left(c, os, st, p) == Owners(os, p) + Came(c, os, st, p)
  {
    match st
    case LoadStep =>
      if os.loaded < |c.jobs| {
        EnqueueCount(os.sched.ready, c.jobs[os.loaded].prio, os.loaded, p);
      }
    case CpuStep(i) =>
      var cpu, t := os.cpus[i], Next(c, os, st);
      CpuEffect(c, os, i);
      hide Next, CpuCount, ReadyCount, Get, Enqueued, CpuOk;
      CpuUpdate(os.cpus, i, t.cpus[i], p);
      if Yields(c, os, i) {
        EnqueueCount(os.sched.ready, c.jobs[cpu.proc.value].prio, cpu.proc.value, p);
      } else if Fetches(c, os, i) {
        GetCount(os.sched, p);
      }
  }

  // ---------- what every step keeps ----------

  /** Processes wait at their own level only. */
  ghost predicate Levels(c: Config, os: Os)
    requires |os.sched.ready| == MAX_PRIO
  {
    forall q :: 0 <= q < MAX_PRIO ==> LevelOk(c, os.sched.ready[q], q)
  }

  ghost predicate LevelOk(c: Config, ready: seq<Pid>, q: nat) {
    forall p <- ready :: p < |c.jobs| && c.jobs[p].prio == q
  }

  /** What running_list may hold: held processes and finished ones (which are never purged). */
  predicate Runs(os: Os, p: Pid) { CpuCount(os.cpus, p) > 0 || p in os.finished }

  ghost predicate RunningOk(os: Os) {
    && Distinct(os.sched.running)
    && (forall p <- os.sched.running :: Runs(os, p))
  }

  ghost predicate Safe(c: Config, os: Os) {
    && ConfigOk(c) && Shape(c, os)
    && AtMostOne(os) && Levels(c, os) && RunningOk(os)
    && (forall p <- os.finished :: p < os.loaded)
  }

  /** Nothing has been dropped: every unfinished process has its owner, running_list is complete. */
  ghost predicate Kept(os: Os) {
    && (forall p :: Owners(os, p) == Due(os, p))
    && (forall p :: Runs(os, p) ==> p in os.sched.running)
  }

  // In a safe state the head of a queue is neither held nor finished.
  lemma ReadyNotRunning(c: Config, os: Os, q: nat, p: Pid)
    requires Safe(c, os) && q < MAX_PRIO && p in os.sched.ready[q]
    ensures !Runs(os, p) && Unfinished(os, p)
  {
    ReadyAtLeast(os.sched.ready, q, p);
    assert Owners(os, p) <= Due(os, p);
  }

  lemma GotReady(s: Sched)
    requires Valid(s) && Get(s).1.Some?
    ensures var q := Scan(s.ready, s.slot, 0).1.value;
            Get(s).1.value == s.ready[q][0] && s.ready[q][0] in s.ready[q]
            && Get(s).0.ready == s.ready[q := s.ready[q][1..]]
  {}

  lemma NextShape(c: Config, os: Os, st: Step)
    requires Safe(c, os) && Enabled(os, st)
    ensures Shape(c, Next(c, os, st))
  {
    GetValid(os.sched);
    hide Owners, RunningOk;
    if st.CpuStep? {
      CpuEffect(c, os, st.cpu);
      if Get(os.sched).1.Some? {
        GotReady(os.sched);
        assert LevelOk(c, os.sched.ready[Scan(os.sched.ready, os.sched.slot, 0).1.value], Scan(os.sched.ready, os.sched.slot, 0).1.value);
      }
      hide Next, Get, Scan;
    }
  }

  lemma NextLevels(c: Config, os: Os, st: Step)
    requires Safe(c, os) && Enabled(os, st)
    ensures Shape(c, Next(c, os, st)) && Levels(c, Next(c, os, st))
  {
    NextShape(c, os, st);
    var t := Next(c, os, st);
    if Get(os.sched).1.Some? {
      GotReady(os.sched);
    }
    forall q | 0 <= q < MAX_PRIO
      ensures LevelOk(c, t.sched.ready[q], q)
    {
      assert LevelOk(c, os.sched.ready[q], q);
    }
  }

  lemma NextAtMostOne(c: Config, os: Os, st: Step)
    requires Safe(c, os) && Enabled(os, st)
    ensures AtMostOne(Next(c, os, st))
  {
    forall p
      ensures Owners(Next(c, os, st), p) <= Due(Next(c, os, st), p)
    {
      NextOwners(c, os, st, p);
      assert Owners(os, p) <= Due(os, p);
    }
  }

  lemma NextRuns(c: Config, os: Os, st: Step, p: Pid)
    requires Safe(c, os) && Enabled(os, st)
    ensures var t := Next(c, os, st);
            Runs(t, p) <==>
              (Runs(os, p) && !(st.CpuStep? && Yields(c, os, st.cpu) && os.cpus[st.cpu].proc == Some(p)))
              || (st.CpuStep? && Fetches(c, os, st.cpu) && Get(os.sched).1 == Some(p))
  {
    if st.CpuStep? {
      var i, t := st.cpu, Next(c, os, st);
      CpuEffect(c, os, i);
      hide Next, CpuCount, ReadyCount, Get, Put, Levels, RunningOk;
      CpuUpdate(os.cpus, i, t.cpus[i], p);
      assert Owners(os, p) <= Due(os, p);
      if os.cpus[i].proc == Some(p) {
        CpuAtLeast(os.cpus, i, p);
      }
    }
  }

  lemma NextRunning(c: Config, os: Os, st: Step)
    requires Safe(c, os) && Enabled(os, st)
    ensures RunningOk(Next(c, os, st))
  {
    var t := Next(c, os, st);
    if st.CpuStep? && Yields(c, os, st.cpu) {
      PurgedMembers(os.sched.running, os.cpus[st.cpu].proc.value);
    }
    if st.CpuStep? && Fetches(c, os, st.cpu) && Get(os.sched).1.Some? {
      GotReady(os.sched);
      ReadyNotRunning(c, os, Scan(os.sched.ready, os.sched.slot, 0).1.value, Get(os.sched).1.value);
    }
    forall p <- t.sched.running
      ensures Runs(t, p)
    {
      NextRuns(c, os, st, p);
    }
  }

  // Safety is an invariant of every interleaving.
  lemma NextSafe(c: Config, os: Os, st: Step)
    requires Safe(c, os) && Enabled(os, st)
    ensures Safe(c, Next(c, os, st))
  {
    NextLevels(c, os, st);
    NextAtMostOne(c, os, st);
    NextRunning(c, os, st);
    if st.CpuStep? && Finishes(c, os, st.cpu) {
      CpuAtLeast(os.cpus, st.cpu, os.cpus[st.cpu].proc.value);
      assert Owners(os, os.cpus[st.cpu].proc.value) <= Due(os, os.cpus[st.cpu].proc.value);
    }
  }

  // ---------- when nothing is dropped ----------

  lemma OverflowDrops(c: Config, os: Os, st: Step)
    requires Safe(c, os) && Kept(os) && Enabled(os, st) && Overflows(c, os, st)
    ensures !Kept(Next(c, os, st))
  {
    var t := Next(c, os, st);
    if st.LoadStep? {
      NextOwners(c, os, st, os.loaded);
      assert Owners(os, os.loaded) == Due(os, os.loaded);
      assert Owners(t, os.loaded) != Due(t, os.loaded);
    } else if Yields(c, os, st.cpu) {
      var p := os.cpus[st.cpu].proc.value;
      CpuAtLeast(os.cpus, st.cpu, p);
      NextOwners(c, os, st, p);
      assert Owners(os, p) == Due(os, p);
      assert Owners(t, p) != Due(t, p);
    } else {
      var p := Get(os.sched).1.value;
      GotReady(os.sched);
      ReadyNotRunning(c, os, Scan(os.sched.ready, os.sched.slot, 0).1.value, p);
      NextRuns(c, os, st, p);
      assert Runs(t, p) && p !in t.sched.running;
    }
  }

  lemma NoOverflowKeeps(c: Config, os: Os, st: Step)
    requires Safe(c, os) && Kept(os) && Enabled(os, st) && !Overflows(c, os, st)
    ensures Kept(Next(c, os, st))
  {
    var t := Next(c, os, st);
    forall p: Pid
      ensures Owners(t, p) == Due(t, p)
    {
      NextOwners(c, os, st, p);
      assert Owners(os, p) == Due(os, p);
      if st.CpuStep? && os.cpus[st.cpu].proc == Some(p) {
        CpuAtLeast(os.cpus, st.cpu, p);
      }
    }
    if st.CpuStep? && Yields(c, os, st.cpu) {
      PurgedMembers(os.sched.running, os.cpus[st.cpu].proc.value);
    }
    forall p | Runs(t, p)
      ensures p in t.sched.running
    {
      NextRuns(c, os, st, p);
    }
  }

  // A step keeps every process exactly when it does not enqueue on a full queue.
  lemma KeptExactly(c: Config, os: Os, st: Step)
    requires Safe(c, os) && Kept(os) && Enabled(os, st)
    ensures Kept(Next(c, os, st)) <==> !Overflows(c, os, st)
  {
    if Overflows(c, os, st) {
      OverflowDrops(c, os, st);
    } else {
      NoOverflowKeeps(c, os, st);
    }
  }

  lemma {:induction false} Pigeonhole(q: seq<Pid>, s: set<Pid>)
    requires Distinct(q) && forall p <- q :: p in s
    ensures |q| <= |s|
  {
    if q == [] {
    } else {
      var p := q[0];
      assert forall x <- q[1..] :: x in s - {p};
      Pigeonhole(q[1..], s - {p});
    }
  }

  function Below(n: nat): (s: set<Pid>)
    ensures |s| == n && forall p: Pid :: p in s <==> p < n
  {
    if n == 0 then {} else Below(n - 1) + {n - 1}
  }

  lemma CountDistinct(q: seq<Pid>)
    requires forall p :: multiset(q)[p] <= 1
    ensures Distinct(q)
  {
    forall i, j | 0 <= i < j < |q|
      ensures q[i] != q[j]
    {
      assert q == q[..i] + [q[i]] + q[i + 1..j] + [q[j]] + q[j + 1..];
      assert multiset(q)[q[i]] >= multiset([q[i]])[q[i]] + multiset([q[j]])[q[i]];
    }
  }

  // A queue that does not hold p has room for it when at most fifty processes exist.
  lemma RoomInQueue(q: seq<Pid>, p: Pid, n: nat)
    requires Distinct(q) && p !in q && p < n <= MAX_QUEUE_SIZE && forall x <- q :: x < n
    ensures |q| < MAX_QUEUE_SIZE
  {
    Pigeonhole(q, Below(n) - {p});
  }

  lemma ReadyDistinct(c: Config, os: Os, q: nat)
    requires Safe(c, os) && q < MAX_PRIO
    ensures Distinct(os.sched.ready[q])
  {
    forall p
      ensures multiset(os.sched.ready[q])[p] <= 1
    {
      ReadyAtLeast(os.sched.ready, q, p);
      assert Owners(os, p) <= Due(os, p);
    }
    CountDistinct(os.sched.ready[q]);
  }

  lemma RunningBelow(c: Config, os: Os, p: Pid)
    requires Safe(c, os) && p in os.sched.running
    ensures p < os.loaded
  {
    assert Runs(os, p) && Owners(os, p) <= Due(os, p);
  }

  lemma FiftyNeverOverflow(c: Config, os: Os, st: Step)
    requires Safe(c, os) && Enabled(os, st) && |c.jobs| <= MAX_QUEUE_SIZE
    ensures !Overflows(c, os, st)
  {
    if st.LoadStep? && os.loaded < |c.jobs| {
      RoomAtLevel(c, os, os.loaded);
    } else if st.CpuStep? && Yields(c, os, st.cpu) {
      CpuAtLeast(os.cpus, st.cpu, os.cpus[st.cpu].proc.value);
      RoomAtLevel(c, os, os.cpus[st.cpu].proc.value);
    } else if st.CpuStep? && Fetches(c, os, st.cpu) && Get(os.sched).1.Some? {
      var p := Get(os.sched).1.value;
      GotReady(os.sched);
      ReadyNotRunning(c, os, Scan(os.sched.ready, os.sched.slot, 0).1.value, p);
      forall x <- os.sched.running
        ensures x < |c.jobs|
      {
        RunningBelow(c, os, x);
      }
      RoomInQueue(os.sched.running, p, |c.jobs|);
    }
  }

  // A process that is held, or not yet loaded, is in no ready queue, so its own has room.
  lemma RoomAtLevel(c: Config, os: Os, p: Pid)
    requires Safe(c, os) && |c.jobs| <= MAX_QUEUE_SIZE && p < |c.jobs|
    requires p == os.loaded || CpuCount(os.cpus, p) > 0
    ensures |os.sched.ready[c.jobs[p].prio]| < MAX_QUEUE_SIZE
  {
    var q := c.jobs[p].prio;
    ReadyDistinct(c, os, q);
    ReadyAtLeast(os.sched.ready, q, p);
    assert Owners(os, p) <= Due(os, p);
    assert LevelOk(c, os.sched.ready[q], q);
    RoomInQueue(os.sched.ready[q], p, |c.jobs|);
  }

  // ---------- whole runs ----------

  /** The steps can be taken in this order. */
  predicate CanRun(c: Config, os: Os, steps: seq<Step>)
    decreases |steps|
  {
    steps != [] ==>
      ConfigOk(c) && Shape(c, os) && Enabled(os, steps[0]) && CanRun(c, Next(c, os, steps[0]), steps[1..])
  }

  function RunSteps(c: Config, os: Os, steps: seq<Step>): Os
    requires CanRun(c, os, steps)
    decreases |steps|
  {
    if steps == [] then os else RunSteps(c, Next(c, os, steps[0]), steps[1..])
  }

  lemma {:induction false} NothingReady(n: nat, p: Pid)
    ensures ReadyCount(NoQueues(n), p) == 0
  {
    if n == 0 {
    } else {
      assert NoQueues(n)[0] == [];
      assert NoQueues(n)[1..] == NoQueues(n - 1);
      NothingReady(n - 1, p);
    }
  }

  lemma {:induction false} NothingHeld(n: nat, p: Pid)
    ensures CpuCount(IdleCpus(n), p) == 0
  {
    if n == 0 {
    } else {
      assert IdleCpus(n)[1..] == IdleCpus(n - 1);
      NothingHeld(n - 1, p);
    }
  }

  lemma BootSafe(c: Config, cpus: nat)
    requires ConfigOk(c)
    ensures Safe(c, Boot(c, cpus)) && Kept(Boot(c, cpus))
  {
    forall p
      ensures Owners(Boot(c, cpus), p) == 0 && CpuCount(Boot(c, cpus).cpus, p) == 0
    {
      NothingReady(MAX_PRIO, p);
      NothingHeld(cpus, p);
    }
  }

  lemma {:induction false} RunSafe(c: Config, os: Os, steps: seq<Step>)
    requires Safe(c, os) && CanRun(c, os, steps)
    ensures Safe(c, RunSteps(c, os, steps))
    ensures |c.jobs| <= MAX_QUEUE_SIZE && Kept(os) ==> Kept(RunSteps(c, os, steps))
    decreases |steps|
  {
    if steps == [] {
    } else {
      NextSafe(c, os, steps[0]);
      if |c.jobs| <= MAX_QUEUE_SIZE && Kept(os) {
        FiftyNeverOverflow(c, os, steps[0]);
        KeptExactly(c, os, steps[0]);
      }
      RunSafe(c, Next(c, os, steps[0]), steps[1..]);
    }
  }

  // In every interleaving no process is held by two CPUs, or held and ready, or ready at two levels.
  lemma OneOwner(c: Config, cpus: nat, steps: seq<Step>, p: Pid)
    requires ConfigOk(c) && CanRun(c, Boot(c, cpus), steps)
    ensures var os := RunSteps(c, Boot(c, cpus), steps);
            && Valid(os.sched)
            && (forall i, j :: 0 <= i < j < |os.cpus| && os.cpus[i].proc == Some(p) ==> os.cpus[j].proc != Some(p))
            && (forall i, q :: 0 <= i < |os.cpus| && 0 <= q < MAX_PRIO && os.cpus[i].proc == Some(p) ==> p !in os.sched.ready[q])
            && (forall q :: 0 <= q < MAX_PRIO && p in os.sched.ready[q] ==> p < |c.jobs| && c.jobs[p].prio == q)
  {
    var os := RunSteps(c, Boot(c, cpus), steps);
    BootSafe(c, cpus);
    RunSafe(c, Boot(c, cpus), steps);
    assert Owners(os, p) <= Due(os, p);
    forall i, j | 0 <= i < j < |os.cpus| && os.cpus[i].proc == Some(p)
      ensures os.cpus[j].proc != Some(p)
    {
      if os.cpus[j].proc == Some(p) {
        CpuPair(os.cpus, i, j, p);
      }
    }
    forall i, q | 0 <= i < |os.cpus| && 0 <= q < MAX_PRIO && os.cpus[i].proc == Some(p)
      ensures p !in os.sched.ready[q]
    {
      CpuAtLeast(os.cpus, i, p);
      ReadyAtLeast(os.sched.ready, q, p);
    }
    forall q | 0 <= q < MAX_PRIO && p in os.sched.ready[q]
      ensures p < |c.jobs| && c.jobs[p].prio == q
    {
      assert LevelOk(c, os.sched.ready[q], q);
    }
  }

  lemma CpuPair(cpus: seq<Cpu>, i: nat, j: nat, p: Pid)
    requires i < j < |cpus| && cpus[i].proc == Some(p) && cpus[j].proc == Some(p)
    ensures CpuCount(cpus, p) >= 2
  {
    var idle := cpus[i].(proc := None);
    CpuUpdate(cpus, i, idle, p);
    CpuAtLeast(cpus[i := idle], j, p);
  }

  lemma {:induction false} FindReady(ready: seq<seq<Pid>>, p: Pid) returns (q: nat)
    requires ReadyCount(ready, p) > 0
    ensures q < |ready| && p in ready[q]
  {
    if p in ready[0] {
      q := 0;
    } else {
      q := FindReady(ready[1..], p);
      q := q + 1;
    }
  }

  lemma {:induction false} FindHolder(cpus: seq<Cpu>, p: Pid) returns (i: nat)
    requires CpuCount(cpus, p) > 0
    ensures i < |cpus| && cpus[i].proc == Some(p)
  {
    if cpus[0].proc == Some(p) {
      i := 0;
    } else {
      i := FindHolder(cpus[1..], p);
      i := i + 1;
    }
  }

  // With at most fifty processes none is ever lost: an unfinished one is held by a CPU and in
  // running_list, or waits in the queue of its own priority.
  lemma NoneLost(c: Config, cpus: nat, steps: seq<Step>, p: Pid)
    requires ConfigOk(c) && CanRun(c, Boot(c, cpus), steps) && |c.jobs| <= MAX_QUEUE_SIZE
    ensures var os := RunSteps(c, Boot(c, cpus), steps);
            && Valid(os.sched)
            && (Unfinished(os, p) <==>
                  ((exists i :: 0 <= i < |os.cpus| && os.cpus[i].proc == Some(p)) && p in os.sched.running)
                  || (p < |c.jobs| && c.jobs[p].prio < MAX_PRIO && p in os.sched.ready[c.jobs[p].prio]))
  {
    var os := RunSteps(c, Boot(c, cpus), steps);
    BootSafe(c, cpus);
    RunSafe(c, Boot(c, cpus), steps);
    assert Owners(os, p) == Due(os, p);
    if CpuCount(os.cpus, p) > 0 {
      var i := FindHolder(os.cpus, p);
      assert Runs(os, p);
    } else if ReadyCount(os.sched.ready, p) > 0 {
      var q := FindReady(os.sched.ready, p);
      assert LevelOk(c, os.sched.ready[q], q);
    }
    if i :| 0 <= i < |os.cpus| && os.cpus[i].proc == Some(p) {
      CpuAtLeast(os.cpus, i, p);
    }
    if p < |c.jobs| {
      ReadyAtLeast(os.sched.ready, c.jobs[p].prio, p);
    }
  }

  // ---------- no run is left out ----------

  lemma {:induction false} Extend(c: Config, os: Os, steps: seq<Step>, st: Step)
    requires Safe(c, os) && CanRun(c, os, steps) && Enabled(RunSteps(c, os, steps), st)
    ensures CanRun(c, os, steps + [st])
    decreases |steps|
  {
    if steps == [] {
      assert ([] + [st])[0] == st && ([] + [st])[1..] == [];
    } else {
      assert (steps + [st])[0] == steps[0] && (steps + [st])[1..] == steps[1..] + [st];
      NextSafe(c, os, steps[0]);
      Extend(c, Next(c, os, steps[0]), steps[1..], st);
    }
  }

  // From the initial state, every run can go on with every enabled step: `CanRun` excludes
  // nothing else.
  lemma EveryStepRuns(c: Config, cpus: nat, steps: seq<Step>, st: Step)
    requires ConfigOk(c) && CanRun(c, Boot(c, cpus), steps) && Enabled(RunSteps(c, Boot(c, cpus), steps), st)
    ensures CanRun(c, Boot(c, cpus), steps + [st])
  {
    BootSafe(c, cpus);
    Extend(c, Boot(c, cpus), steps, st);
  }

  // ---------- when a run loses nothing ----------

  ghost predicate KeptAllAlong(c: Config, os: Os, steps: seq<Step>)
    requires CanRun(c, os, steps)
    decreases |steps|
  {
    Kept(os) && (steps != [] ==> KeptAllAlong(c, Next(c, os, steps[0]), steps[1..]))
  }

  predicate NeverOverflows(c: Config, os: Os, steps: seq<Step>)
    requires CanRun(c, os, steps)
    decreases |steps|
  {
    steps != [] ==> !Overflows(c, os, steps[0]) && NeverOverflows(c, Next(c, os, steps[0]), steps[1..])
  }

  lemma {:induction false} RunKept(c: Config, os: Os, steps: seq<Step>)
    requires Safe(c, os) && Kept(os) && CanRun(c, os, steps)
    ensures KeptAllAlong(c, os, steps) <==> NeverOverflows(c, os, steps)
    decreases |steps|
  {
    if steps == [] {
    } else {
      NextSafe(c, os, steps[0]);
      KeptExactly(c, os, steps[0]);
      var t := Next(c, os, steps[0]);
      hide Kept, Overflows, Safe, Next, Enabled, Shape;
      if Kept(t) {
        RunKept(c, t, steps[1..]);
      }
    }
  }

  // A run keeps every process at every point if and only if no step enqueues on a full queue.
  lemma KeptThroughExactly(c: Config, cpus: nat, steps: seq<Step>)
    requires ConfigOk(c) && CanRun(c, Boot(c, cpus), steps)
    ensures KeptAllAlong(c, Boot(c, cpus), steps) <==> NeverOverflows(c, Boot(c, cpus), steps)
  {
    BootSafe(c, cpus);
    RunKept(c, Boot(c, cpus), steps);
  }

  // ---------- a run that loses a process ----------

  /** n processes of the highest priority, of 100 instructions each. */
  function Alike(n: nat): (jobs: seq<Job>)
    ensures |jobs| == n && forall i :: 0 <= i < n ==> jobs[i] == Job(0, 100)
  {
    if n == 0 then [] else Alike(n - 1) + [Job(0, 100)]
  }

  /** One time slot of the barrier: the loader loads, the CPU goes once around its loop. */
  function Rounds(k: nat): seq<Step> {
    if k == 0 then [] else [LoadStep] + ([CpuStep(0)] + ([CpuStep(0)] + Rounds(k - 1)))
  }

  lemma RunCons(c: Config, os: Os, st: Step, rest: seq<Step>)
    requires ConfigOk(c) && Shape(c, os) && Enabled(os, st) && CanRun(c, Next(c, os, st), rest)
    ensures CanRun(c, os, [st] + rest) && RunSteps(c, os, [st] + rest) == RunSteps(c, Next(c, os, st), rest)
  {
    assert ([st] + rest)[0] == st && ([st] + rest)[1..] == rest;
  }

  lemma RoundCons(c: Config, os: Os, t: Os, u: Os, n: nat)
    requires ConfigOk(c) && Shape(c, os) && Enabled(os, LoadStep) && t == Next(c, os, LoadStep)
    requires Shape(c, t) && Enabled(t, CpuStep(0)) && u == Next(c, t, CpuStep(0))
    requires Shape(c, u) && Enabled(u, CpuStep(0))
    ensures CanRun(c, Next(c, u, CpuStep(0)), Rounds(n)) ==>
              CanRun(c, os, Rounds(n + 1)) && RunSteps(c, os, Rounds(n + 1)) == RunSteps(c, Next(c, u, CpuStep(0)), Rounds(n))
  {
    hide Next, Shape, Enabled, CanRun, RunSteps, ConfigOk;
    if CanRun(c, Next(c, u, CpuStep(0)), Rounds(n)) {
      RunCons(c, u, CpuStep(0), Rounds(n));
      RunCons(c, t, CpuStep(0), [CpuStep(0)] + Rounds(n));
      RunCons(c, os, LoadStep, [CpuStep(0)] + ([CpuStep(0)] + Rounds(n)));
    }
  }

  /** After k slots the CPU still runs process 0, and all others wait. */
  predicate Busy(c: Config, os: Os, k: nat) {
    && Shape(c, os) && !os.done && os.loaded == k && os.finished == {} && |os.sched.ready[0]| == k - 1
    && |os.cpus| == 1 && os.cpus[0].at == Top && os.cpus[0].proc == Some(0) && os.cpus[0].timeLeft == 100 - k
    && |os.pc| > 0 && os.pc[0] == k
  }

  lemma BusyRound(os: Os, k: nat)
    requires Busy(Config(Alike(52), 100), os, k) && k <= 50
    ensures var c := Config(Alike(52), 100);
            var t := Next(c, os, LoadStep);
            && Shape(c, t) && Enabled(os, LoadStep) && Enabled(t, CpuStep(0))
            && var u := Next(c, t, CpuStep(0));
            && Shape(c, u) && Enabled(u, CpuStep(0))
            && Busy(c, Next(c, u, CpuStep(0)), k + 1)
  {
    hide Get, Put;
  }

  lemma FirstRound()
    ensures var c := Config(Alike(52), 100);
            var t := Next(c, Boot(c, 1), LoadStep);
            && Shape(c, Boot(c, 1)) && Shape(c, t) && Enabled(Boot(c, 1), LoadStep) && Enabled(t, CpuStep(0))
            && var u := Next(c, t, CpuStep(0));
            && Shape(c, u) && Enabled(u, CpuStep(0))
            && Busy(c, Next(c, u, CpuStep(0)), 1)
  {
    var c := Config(Alike(52), 100);
    FirstLoad();
    var t := Next(c, Boot(c, 1), LoadStep);
    FirstFetch(t);
    hide Boot;
    BootSafe(c, 1);
    FirstRunOnce(Next(c, t, CpuStep(0)));
    hide Next, Busy, Shape, Alike;
  }

  /** One process is ready at the highest level, and the only CPU is idle. */
  predicate OneReady(os: Os) {
    && Shape(Config(Alike(52), 100), os) && !os.done && os.loaded == 1 && os.finished == {} && |os.pc| > 0 && os.pc[0] == 0
    && os.sched.ready[0] == [0] && os.sched.slot[0] == MAX_PRIO && os.cpus == [Cpu(Top, None, 0, 0, 0)]
  }

  lemma FirstLoad()
    ensures var c := Config(Alike(52), 100);
            Shape(c, Boot(c, 1)) && Enabled(Boot(c, 1), LoadStep) && OneReady(Next(c, Boot(c, 1), LoadStep))
  {}

  /** The CPU holds the process and is about to run it. */
  predicate OneHeld(os: Os) {
    && Shape(Config(Alike(52), 100), os) && !os.done && os.loaded == 1 && os.finished == {} && |os.pc| > 0 && os.pc[0] == 0
    && os.sched.ready[0] == [] && os.cpus == [Cpu(Recheck, Some(0), 0, 0, 0)]
  }

  lemma FirstFetch(t: Os)
    requires OneReady(t)
    ensures OneHeld(Next(Config(Alike(52), 100), t, CpuStep(0)))
  {
    assert Scan(t.sched.ready, t.sched.slot, 0) == (t.sched.slot[0 := MAX_PRIO - 1], Some(0));
    GetValid(t.sched);
    hide Scan;
  }

  lemma FirstRunOnce(u: Os)
    requires OneHeld(u)
    ensures Busy(Config(Alike(52), 100), Next(Config(Alike(52), 100), u, CpuStep(0)), 1)
  {}

  lemma {:induction false} BusyRounds(os: Os, k: nat, n: nat)
    requires Busy(Config(Alike(52), 100), os, k) && k + n <= 51
    ensures var c := Config(Alike(52), 100);
            CanRun(c, os, Rounds(n)) && Busy(c, RunSteps(c, os, Rounds(n)), k + n)
    decreases n
  {
    var c := Config(Alike(52), 100);
    if n == 0 {
    } else {
      BusyRound(os, k);
      var t := Next(c, os, LoadStep);
      var u := Next(c, t, CpuStep(0));
      hide Busy, Next, Shape, Enabled, RunSteps, CanRun, Alike;
      assert ConfigOk(c);
      BusyRounds(Next(c, u, CpuStep(0)), k + 1, n - 1);
      RoundCons(c, os, t, u, n - 1);
    }
  }

  lemma AlikeOk()
    ensures ConfigOk(Config(Alike(52), 100))
  {}

  lemma FirstRounds(n: nat)
    requires n <= 50
    ensures var c := Config(Alike(52), 100);
            CanRun(c, Boot(c, 1), Rounds(n + 1)) && Busy(c, RunSteps(c, Boot(c, 1), Rounds(n + 1)), n + 1)
  {
    var c := Config(Alike(52), 100);
    FirstRound();
    AlikeOk();
    var t := Next(c, Boot(c, 1), LoadStep);
    var u := Next(c, t, CpuStep(0));
    hide Busy, Next, Shape, Enabled, RunSteps, CanRun, Alike, Boot;
    BusyRounds(Next(c, u, CpuStep(0)), 1, n);
    RoundCons(c, Boot(c, 1), t, u, n);
  }

  // A run the barrier allows: a process is loaded in every slot while the only CPU works on the
  // first one. The fifty-second process finds the queue full and is lost: not finished, and yet
  // neither held nor ready.
  lemma FiftySecondLost()
    ensures var c := Config(Alike(52), 100);
            && ConfigOk(c) && CanRun(c, Boot(c, 1), Rounds(51))
            && var os := RunSteps(c, Boot(c, 1), Rounds(51));
            && Shape(c, os) && Enabled(os, LoadStep)
            && var t := Next(c, os, LoadStep);
            && Unfinished(t, 51) && Owners(t, 51) == 0
  {
    var c := Config(Alike(52), 100);
    AlikeOk();
    FirstRounds(50);
    BootSafe(c, 1);
    RunSafe(c, Boot(c, 1), Rounds(51));
    LostAtOnce(RunSteps(c, Boot(c, 1), Rounds(51)));
  }

  lemma LostAtOnce(os: Os)
    requires var c := Config(Alike(52), 100); Safe(c, os) && Busy(c, os, 51)
    ensures var c := Config(Alike(52), 100);
            && Enabled(os, LoadStep) && Unfinished(Next(c, os, LoadStep), 51) && Owners(Next(c, os, LoadStep), 51) == 0
  {
    var c := Config(Alike(52), 100);
    assert Owners(os, 51) <= Due(os, 51);
    NextOwners(c, os, LoadStep, 51);
    hide Owners;
  }
}
