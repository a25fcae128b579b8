/** The static arrays of src/sched.c as one object, with the critical sections as methods. */
module MlqScheduler {
  import opened Words
  import opened Queues
  import opened Scheduling

  // One round of the loop, and its end.
  lemma ScanLevel(ready: seq<seq<Pid>>, slot: seq<nat>, prio: nat)
    requires |ready| == MAX_PRIO && |slot| == MAX_PRIO && prio < MAX_PRIO
    ensures Scan(ready, slot, prio) ==
            if ready[prio] == [] then Scan(ready, slot, prio + 1)
            else if slot[prio] > 0 then (slot[prio := slot[prio] - 1], Some(prio))
            else Scan(ready, slot[prio := MAX_PRIO - prio], prio + 1)
  {}

  lemma ScanEnd(ready: seq<seq<Pid>>, slot: seq<nat>)
    requires |ready| == MAX_PRIO && |slot| == MAX_PRIO
    ensures Scan(ready, slot, MAX_PRIO) == (slot, None)
  {}

  method EmptyQueues() returns (qs: seq<Queue>)
    ensures |qs| == MAX_PRIO
    ensures forall k :: 0 <= k < MAX_PRIO ==> fresh(qs[k]) && fresh(qs[k].proc)
    ensures forall k :: 0 <= k < MAX_PRIO ==> qs[k].Valid() && qs[k].Contents() == []
    ensures forall j, k :: 0 <= j < k < MAX_PRIO ==> qs[j] != qs[k] && qs[j].proc != qs[k].proc
  {
    qs := [];
    for i := 0 to MAX_PRIO
      invariant |qs| == i
      invariant forall k :: 0 <= k < i ==> fresh(qs[k]) && fresh(qs[k].proc)
      invariant forall k :: 0 <= k < i ==> qs[k].Valid() && qs[k].Contents() == []
      invariant forall j, k :: 0 <= j < k < i ==> qs[j] != qs[k] && qs[j].proc != qs[k].proc
    {
      var q := new Queue();
      qs := qs + [q];
    }
  }

  method FullArray() returns (a: array<nat>)
    ensures fresh(a) && a.Length == MAX_PRIO && a[..] == NewSched().slot
  {
    a := new nat[MAX_PRIO];
    for i := 0 to MAX_PRIO
      invariant forall k :: 0 <= k < i ==> a[k] == MAX_PRIO - k
    {
      a[i] := MAX_PRIO - i;
    }
    assert a[..] == FullSlots(MAX_PRIO);
  }

  lemma NewSchedLevels()
    ensures var s := NewSched();
            Valid(s) && s.running == [] && forall p :: 0 <= p < MAX_PRIO ==> s.ready[p] == []
  {}

  class Scheduler {
    const queues: seq<Queue>
    const slot: array<nat>
    const running: Queue
    ghost var view: Sched

    ghost predicate Separate() {
      && |queues| == MAX_PRIO && slot.Length == MAX_PRIO
      && (forall i, j :: 0 <= i < j < MAX_PRIO ==> queues[i] != queues[j] && queues[i].proc != queues[j].proc)
      && (forall i :: 0 <= i < MAX_PRIO ==> queues[i] != running && queues[i].proc != running.proc && queues[i].proc != slot)
      && running.proc != slot
    }

    ghost function Repr(): set<object> {
      {this, running, running.proc, slot} + (set q | q in queues :: q as object) + (set q | q in queues :: q.proc as object)
    }

    /** The arrays hold what the abstract state `view` says. */
    ghost predicate Represents()
      reads Repr()
    {
      && Separate() && Valid(view)
      && running.Valid() && view.running == running.Contents()
      && view.slot == slot[..]
      && (forall i :: 0 <= i < MAX_PRIO ==> queues[i].Valid() && view.ready[i] == queues[i].Contents())
    }

    /** `init_scheduler`. */
    constructor ()
      ensures Represents() && view == NewSched() && fresh(Repr())
    {
      var qs := EmptyQueues();
      var full := FullArray();
      queues, slot := qs, full;
      running := new Queue();
      view := NewSched();
      new;
      NewSchedLevels();
      hide NewSched, Valid;
    }

    // What the arrays show at one level.
    lemma ShowsLevel(prio: nat)
      requires Represents() && prio < MAX_PRIO
      ensures Valid(view) && |queues| == MAX_PRIO && slot.Length == MAX_PRIO && slot[prio] == view.slot[prio]
      ensures queues[prio].Valid() && view.ready[prio] == queues[prio].Contents()
      ensures queues[prio] in Repr() && queues[prio].proc in Repr()
    {}

    method GetMlqProc() returns (proc: Option<Pid>)
      requires Represents()
      modifies Repr()
      ensures Represents() && (view, proc) == Get(old(view))
    {
      ShowsLevel(0);
      hide Represents, Scan, Repr;
      proc := None;
      ScanEnd(view.ready, view.slot);
      for prio := 0 to MAX_PRIO
        invariant proc == None && Represents() && Valid(view) && view == old(view).(slot := view.slot)
        invariant Scan(old(view).ready, old(view).slot, 0) == Scan(view.ready, view.slot, prio)
      {
        ShowsLevel(prio);
        ScanLevel(view.ready, view.slot, prio);
        if !queues[prio].IsEmpty() {
          if slot[prio] > 0 {
            proc := Serve(prio);
            break;
          } else {
            Refill(prio);
          }
        }
      }
      ScanEnd(view.ready, view.slot);
      if proc.Some? {
        Track(proc.value);
      }
    }

    // The branch of the loop that gives a level its slots back.
    method Refill(prio: nat)
      requires Represents() && prio < MAX_PRIO
      modifies Repr()
      ensures Represents() && view == old(view).(slot := old(view).slot[prio := MAX_PRIO - prio])
    {
      slot[prio] := MAX_PRIO - prio;
      view := view.(slot := view.slot[prio := MAX_PRIO - prio]);
    }

    method Track(p: Pid)
      requires Represents()
      modifies Repr()
      ensures Represents() && view == old(view).(running := Enqueued(old(view).running, p))
    {
      running.Enqueue(Some(p));
      view := view.(running := Enqueued(view.running, p));
    }

    // The branch of the loop that takes a process from a level and pays with one of its slots.
    method Serve(prio: nat) returns (proc: Option<Pid>)
      requires Represents() && prio < MAX_PRIO && view.ready[prio] != [] && view.slot[prio] > 0
      modifies Repr()
      ensures Represents() && proc == Some(old(view).ready[prio][0])
      ensures view == old(view).(ready := old(view).ready[prio := old(view).ready[prio][1..]],
                                 slot := old(view).slot[prio := old(view).slot[prio] - 1])
    {
      proc := queues[prio].Dequeue();
      slot[prio] := slot[prio] - 1;
      view := view.(ready := view.ready[prio := view.ready[prio][1..]], slot := view.slot[prio := view.slot[prio] - 1]);
    }

    method PutMlqProc(p: Pid, prio: nat)
      requires Represents() && prio < MAX_PRIO
      modifies Repr()
      ensures Represents() && view == Put(old(view), p, prio)
    {
      ShowsLevel(prio);
      hide Represents, Repr;
      Untrack(p);
      AddMlqProc(p, prio);
    }

    method AddMlqProc(p: Pid, prio: nat)
      requires Represents() && prio < MAX_PRIO
      modifies Repr()
      ensures Represents() && view == Add(old(view), p, prio)
    {
      queues[prio].Enqueue(Some(p));
      view := Add(view, p, prio);
    }

    method Untrack(p: Pid)
      requires Represents()
      modifies Repr()
      ensures Represents() && view == old(view).(running := Purged(old(view).running, p))
    {
      var _ := running.Purge(Some(p));
      view := view.(running := Purged(view.running, p));
    }
  }
}
