/** The bounded array queue of src/queue.c. A process is a number, NULL is None. */
module Queues {
  import opened Words

  const MAX_QUEUE_SIZE: nat := 50

  type Pid = nat

  function Enqueued(q: seq<Pid>, p: Pid): seq<Pid> {
    if |q| >= MAX_QUEUE_SIZE then q else q + [p]
  }

  /** The queue without the first occurrence of p. */
  function Purged(q: seq<Pid>, p: Pid): seq<Pid> {
    if q == [] then [] else if q[0] == p then q[1..] else [q[0]] + Purged(q[1..], p)
  }

  ghost predicate Distinct(q: seq<Pid>) {
    forall i, j :: 0 <= i < j < |q| ==> q[i] != q[j]
  }

  lemma {:induction false} PurgedAt(q: seq<Pid>, i: nat)
    requires i < |q| && forall j :: 0 <= j < i ==> q[j] != q[i]
    ensures Purged(q, q[i]) == q[..i] + q[i + 1..]
  {
    if i == 0 {
    } else {
      assert q[1..][i - 1] == q[i];
      PurgedAt(q[1..], i - 1);
      assert q[..i] + q[i + 1..] == [q[0]] + (q[1..][..i - 1] + q[1..][i..]);
    }
  }

  lemma {:induction false} PurgedAbsent(q: seq<Pid>, p: Pid)
    requires p !in q
    ensures Purged(q, p) == q
  {
    if q == [] {
    } else {
      PurgedAbsent(q[1..], p);
    }
  }

  lemma WithoutOne(q: seq<Pid>, i: nat)
    requires Distinct(q) && i < |q|
    ensures Distinct(q[..i] + q[i + 1..])
    ensures forall x :: x in q[..i] + q[i + 1..] <==> x in q && x != q[i]
  {
    var r := q[..i] + q[i + 1..];
    assert forall j :: 0 <= j < |r| ==> r[j] == q[if j < i then j else j + 1];
    forall x | x in q && x != q[i]
      ensures x in r
    {
      var j :| 0 <= j < |q| && q[j] == x;
      assert r[if j < i then j else j - 1] == x;
    }
  }

  // Purging from a queue without duplicates removes p and nothing else.
  lemma PurgedMembers(q: seq<Pid>, p: Pid)
    requires Distinct(q)
    ensures Distinct(Purged(q, p)) && |Purged(q, p)| <= |q|
    ensures forall x :: x in Purged(q, p) <==> x in q && x != p
  {
    if p in q {
      var i :| 0 <= i < |q| && q[i] == p;
      PurgedAt(q, i);
      WithoutOne(q, i);
    } else {
      PurgedAbsent(q, p);
    }
    hide Purged, Distinct;
  }

  class Queue {
    const proc: array<Pid>
    var size: nat

    ghost predicate Valid()
      reads this
    {
      proc.Length == MAX_QUEUE_SIZE && size <= MAX_QUEUE_SIZE
    }

    ghost function Contents(): seq<Pid>
      reads this, proc
      requires Valid()
    {
      proc[..size]
    }

    constructor ()
      ensures Valid() && Contents() == [] && fresh(proc)
    {
      proc := new Pid[MAX_QUEUE_SIZE];
      size := 0;
    }

    predicate IsEmpty()
      reads this, proc
      requires Valid()
      ensures IsEmpty() <==> Contents() == []
    {
      size == 0
    }

    method Enqueue(p: Option<Pid>)
      requires Valid()
      modifies this, proc
      ensures Valid()
      ensures Contents() == if p.None? then old(Contents()) else Enqueued(old(Contents()), p.value)
    {
      if p.None? || size >= MAX_QUEUE_SIZE {
        return;
      }
      proc[size] := p.value;
      size := size + 1;
    }

    // Shift everything from position `from` one place to the left.
    method CloseGap(from: nat)
      requires Valid() && from < size
      modifies this, proc
      ensures Valid() && Contents() == old(Contents()[..from] + Contents()[from + 1..])
    {
      var i := from + 1;
      while i < size
        invariant from < i <= size && size == old(size)
        invariant forall k :: 0 <= k < from || i <= k < size ==> proc[k] == old(proc[k])
        invariant forall k :: from <= k < i - 1 ==> proc[k] == old(proc[k + 1])
      {
        proc[i - 1] := proc[i];
        i := i + 1;
      }
      size := size - 1;
    }

    method Dequeue() returns (p: Option<Pid>)
      requires Valid()
      modifies this, proc
      ensures Valid()
      ensures if old(Contents()) == [] then p == None && Contents() == []
              else p == Some(old(Contents())[0]) && Contents() == old(Contents())[1..]
    {
      if size == 0 {
        return None;
      }
      p := Some(proc[0]);
      CloseGap(0);
    }

    method Purge(p: Option<Pid>) returns (r: Option<Pid>)
      requires Valid()
      modifies this, proc
      ensures Valid()
      ensures r == if p.Some? && p.value in old(Contents()) then p else None
      ensures Contents() == if p.None? then old(Contents()) else Purged(old(Contents()), p.value)
    {
      if p.None? {
        return None;
      }
      var idx := 0;
      while idx < size && proc[idx] != p.value
        invariant 0 <= idx <= size
        invariant forall k :: 0 <= k < idx ==> proc[k] != p.value
      {
        idx := idx + 1;
      }
      if idx == size {
        PurgedAbsent(Contents(), p.value);
        return None;
      }
      PurgedAt(Contents(), idx);
      r := p;
      CloseGap(idx);
    }
  }
}
