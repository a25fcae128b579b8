/** The multi-level queue scheduler of src/sched.c: its state, one step per critical section. */
module Scheduling {
  import opened Words
  import opened Queues

  const MAX_PRIO: nat := 140

  datatype Sched = Sched(ready: seq<seq<Pid>>, slot: seq<nat>, running: seq<Pid>)

  predicate Valid(s: Sched) {
    && |s.ready| == MAX_PRIO && |s.slot| == MAX_PRIO
    && (forall p :: 0 <= p < MAX_PRIO ==> s.slot[p] <= MAX_PRIO - p)
  }

  /** The loop of `get_mlq_proc` from level `prio` on: the slots it leaves and the level it serves. */
  function Scan(ready: seq<seq<Pid>>, slot: seq<nat>, prio: nat): (r: (seq<nat>, Option<nat>))
    requires |ready| == MAX_PRIO && |slot| == MAX_PRIO && prio <= MAX_PRIO
    ensures |r.0| == MAX_PRIO && (r.1.Some? ==> prio <= r.1.value < MAX_PRIO && ready[r.1.value] != [])
    decreases MAX_PRIO - prio
  {
    if prio == MAX_PRIO then (slot, None)
    else if ready[prio] == [] then Scan(ready, slot, prio + 1)
    else if slot[prio] > 0 then (slot[prio := slot[prio] - 1], Some(prio))
    else Scan(ready, slot[prio := MAX_PRIO - prio], prio + 1)
  }

  /** The level at which the loop stops. */
  function Stop(r: Option<nat>): nat { if r.None? then MAX_PRIO else r.value }

  // What a scan does to every level, said without the loop: the served level is the first one
  // that is ready and has slots left; ready levels above it in rank are refilled, others kept.
  lemma {:induction false} ScanFacts(ready: seq<seq<Pid>>, slot: seq<nat>, prio: nat)
    requires |ready| == MAX_PRIO && |slot| == MAX_PRIO && prio <= MAX_PRIO
    ensures var (after, r) := Scan(ready, slot, prio);
            && prio <= Stop(r) <= MAX_PRIO && (r.Some? ==> slot[r.value] > 0)
            && (forall p :: prio <= p < Stop(r) ==> ready[p] == [] || slot[p] == 0)
            && (forall p :: 0 <= p < MAX_PRIO ==>
                  after[p] == if prio <= p < Stop(r) && ready[p] != [] then MAX_PRIO - p
                              else if r == Some(p) then slot[p] - 1 else slot[p])
    decreases MAX_PRIO - prio
  {
    if prio < MAX_PRIO {
      if ready[prio] == [] {
        ScanFacts(ready, slot, prio + 1);
      } else if slot[prio] == 0 {
        ScanFacts(ready, slot[prio := MAX_PRIO - prio], prio + 1);
      }
    }
  }

  /** `get_mlq_proc`: the new state and the process handed out. */
  function Get(s: Sched): (r: (Sched, Option<Pid>))
    requires Valid(s)
  {
    var (slot, level) := Scan(s.ready, s.slot, 0);
    if level.None? then (s.(slot := slot), None)
    else
      var q := s.ready[level.value];
      (Sched(s.ready[level.value := q[1..]], slot, Enqueued(s.running, q[0])), Some(q[0]))
  }

  function Put(s: Sched, p: Pid, prio: nat): Sched
    requires Valid(s) && prio < MAX_PRIO
  {
    s.(ready := s.ready[prio := Enqueued(s.ready[prio], p)], running := Purged(s.running, p))
  }

  function Add(s: Sched, p: Pid, prio: nat): Sched
    requires Valid(s) && prio < MAX_PRIO
  {
    s.(ready := s.ready[prio := Enqueued(s.ready[prio], p)])
  }

  function FullSlots(n: nat): (slot: seq<nat>)
    requires n <= MAX_PRIO
    ensures |slot| == n && forall p :: 0 <= p < n ==> slot[p] == MAX_PRIO - p
  {
    if n == 0 then [] else FullSlots(n - 1) + [MAX_PRIO - (n - 1)]
  }

  function NoQueues(n: nat): (ready: seq<seq<Pid>>)
    ensures |ready| == n && forall p :: 0 <= p < n ==> ready[p] == []
  {
    if n == 0 then [] else NoQueues(n - 1) + [[]]
  }

  /** `init_scheduler`. */
  function NewSched(): (s: Sched)
    ensures Valid(s)
  {
    Sched(NoQueues(MAX_PRIO), FullSlots(MAX_PRIO), [])
  }

  lemma GetValid(s: Sched)
    requires Valid(s)
    ensures Valid(Get(s).0)
  {
    ScanFacts(s.ready, s.slot, 0);
  }

  /** The scheduler's critical sections, in the order in which threads enter them. */
  datatype Event = GetEvent | PutEvent(pid: Pid, prio: nat) | AddEvent(pid: Pid, prio: nat)

  predicate Callable(e: Event) { e.GetEvent? || e.prio < MAX_PRIO }

  function After(s: Sched, e: Event): (t: Sched)
    requires Valid(s) && Callable(e)
    ensures Valid(t)
  {
    match e
    case GetEvent => GetValid(s); Get(s).0
    case PutEvent(p, prio) => Put(s, p, prio)
    case AddEvent(p, prio) => Add(s, p, prio)
  }

  predicate AllCallable(es: seq<Event>) { forall i :: 0 <= i < |es| ==> Callable(es[i]) }

  function Run(s: Sched, es: seq<Event>): (t: Sched)
    requires Valid(s) && AllCallable(es)
    ensures Valid(t)
    decreases |es|
  {
    if es == [] then s else Run(After(s, es[0]), es[1..])
  }
}
