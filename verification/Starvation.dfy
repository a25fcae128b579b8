/**
 * The slots as a mixed-radix odometer: how long a waiting process can wait, how often each level
 * is served, and when the scheduler may hand out nothing.
 */
module Starvation {
  import opened Words
  import opened Queues
  import opened Scheduling

  /** How many settings the slots of the levels below q have: the product of 141 - j over j < q. */
  function Settings(q: nat): (m: nat)
    requires q <= MAX_PRIO
    ensures m >= 1
  {
    if q == 0 then 1
    else
      MulAtLeast(Settings(q - 1), MAX_PRIO + 1 - (q - 1));
      Settings(q - 1) * (MAX_PRIO + 1 - (q - 1))
  }

  lemma MulAtLeast(a: nat, b: nat)
    requires a >= 1 && b >= 1
    ensures a * b >= 1
  {}

  function Factorial(n: nat): nat { if n == 0 then 1 else n * Factorial(n - 1) }

  // In closed form: 141! / (141 - q)!.
  lemma {:induction false} SettingsClosed(q: nat)
    requires q <= MAX_PRIO
    ensures q <= 140 && Settings(q) * Factorial(141 - q) == Factorial(141)
  {
    if q == 0 {
    } else {
      SettingsClosed(q - 1);
      var d := MAX_PRIO + 1 - (q - 1);
      assert Factorial(d) == d * Factorial(d - 1);
      MulAssoc(Settings(q - 1), d, Factorial(d - 1));
    }
  }

  lemma MulAssoc(a: nat, b: nat, c: nat)
    ensures a * b * c == a * (b * c)
  {}

  /** The odometer reading of the slots of the levels below q. */
  function Reading(slot: seq<nat>, q: nat): nat
    requires |slot| == MAX_PRIO && q <= MAX_PRIO
  {
    if q == 0 then 0 else Reading(slot, q - 1) + slot[q - 1] * Settings(q - 1)
  }

  lemma {:induction false} ReadingBound(slot: seq<nat>, q: nat)
    requires |slot| == MAX_PRIO && q <= MAX_PRIO
    requires forall p :: 0 <= p < q ==> slot[p] <= MAX_PRIO - p
    ensures Reading(slot, q) < Settings(q)
  {
    if q == 0 {
    } else {
      ReadingBound(slot, q - 1);
      var m, d := Settings(q - 1), MAX_PRIO - (q - 1);
      MulMono(slot[q - 1], d, m);
      assert m * (d + 1) == m + d * m;
    }
  }

  lemma MulMono(a: nat, b: nat, m: nat)
    requires a <= b
    ensures a * m <= b * m
  {}

  lemma {:induction false} ReadingSame(a: seq<nat>, b: seq<nat>, r: nat, q: nat)
    requires |a| == MAX_PRIO && |b| == MAX_PRIO && r <= q <= MAX_PRIO
    requires forall p :: r <= p < q ==> a[p] == b[p]
    ensures Reading(b, q) - Reading(b, r) == Reading(a, q) - Reading(a, r)
    decreases q
  {
    if r < q {
      ReadingSame(a, b, r, q - 1);
    }
  }

  lemma TurnBack(a: seq<nat>, b: seq<nat>, r: nat, q: nat)
    requires |a| == MAX_PRIO && |b| == MAX_PRIO && r < q <= MAX_PRIO
    requires a[r] == b[r] + 1
    requires forall p :: 0 <= p < r ==> b[p] <= MAX_PRIO - p
    requires forall p :: r + 1 <= p < q ==> a[p] == b[p]
    ensures Reading(b, q) < Reading(a, q)
  {
    ReadingBound(b, r);
    MulSucc(b[r], Settings(r));
    ReadingSame(a, b, r + 1, q);
  }

  // Serving a level below q turns the odometer back, whatever it refills on the way.
  lemma ServingTurnsBack(s: Sched, q: nat)
    requires Valid(s) && q <= MAX_PRIO
    ensures var (slot, level) := Scan(s.ready, s.slot, 0);
            level.Some? && level.value < q ==> Reading(slot, q) < Reading(s.slot, q)
  {
    ScanFacts(s.ready, s.slot, 0);
    var (slot, level) := Scan(s.ready, s.slot, 0);
    if level.Some? && level.value < q {
      TurnBack(s.slot, slot, level.value, q);
    }
  }

  /** A bound on the number of `get_mlq_proc` calls until the process at position k of level q is handed out. */
  function Wait(s: Sched, q: nat, k: nat): nat
    requires Valid(s) && q < MAX_PRIO
  {
    Reading(s.slot, q) + 1 + (if s.slot[q] == 0 then Settings(q) else 0) + k * (2 * Settings(q))
  }

  lemma WaitBound(s: Sched, q: nat, k: nat)
    requires Valid(s) && q < MAX_PRIO
    ensures Wait(s, q, k) <= (k + 1) * (2 * Settings(q))
  {
    ReadingBound(s.slot, q);
    MulSucc(k, 2 * Settings(q));
  }

  lemma MulSucc(a: nat, m: nat)
    ensures (a + 1) * m == a * m + m
  {}

  // Every call hands out the process, or moves it up with a smaller bound, or leaves it in place
  // with a smaller bound.
  lemma GetProgress(s: Sched, q: nat, k: nat)
    requires Valid(s) && q < MAX_PRIO && k < |s.ready[q]|
    ensures var (t, p) := Get(s);
            Valid(t) &&
            ((k == 0 && p == Some(s.ready[q][0]))
             || (k > 0 && k - 1 < |t.ready[q]| && t.ready[q][k - 1] == s.ready[q][k] && Wait(t, q, k - 1) < Wait(s, q, k))
             || (k < |t.ready[q]| && t.ready[q][k] == s.ready[q][k] && Wait(t, q, k) < Wait(s, q, k)))
  {
    GetValid(s);
    ScanFacts(s.ready, s.slot, 0);
    var (slot, level) := Scan(s.ready, s.slot, 0);
    var t := Get(s).0;
    if level == Some(q) {
      if k > 0 {
        WaitBound(t, q, k - 1);
        MulSucc(k - 1, 2 * Settings(q));
      }
    } else if level.Some? && level.value < q {
      ServingTurnsBack(s, q);
    } else {
      ReadingBound(slot, q);
    }
  }

  function Gets(es: seq<Event>): nat {
    if es == [] then 0 else (if es[0].GetEvent? then 1 else 0) + Gets(es[1..])
  }

  /** Some `get_mlq_proc` of the run hands out process p. */
  predicate Dispatched(s: Sched, es: seq<Event>, p: Pid)
    requires Valid(s) && AllCallable(es)
    decreases |es|
  {
    es != [] && ((es[0].GetEvent? && Get(s).1 == Some(p)) || Dispatched(After(s, es[0]), es[1..], p))
  }

  // The same for every event: only a call shortens the wait, nothing lengthens it.
  lemma EventProgress(s: Sched, e: Event, q: nat, k: nat) returns (k': nat)
    requires Valid(s) && Callable(e) && q < MAX_PRIO && k < |s.ready[q]|
    ensures (e.GetEvent? && Get(s).1 == Some(s.ready[q][k]))
            || (k' < |After(s, e).ready[q]| && After(s, e).ready[q][k'] == s.ready[q][k]
                && Wait(After(s, e), q, k') + (if e.GetEvent? then 1 else 0) <= Wait(s, q, k))
  {
    k' := k;
    if e.GetEvent? {
      var t := Get(s).0;
      GetProgress(s, q, k);
      if k > 0 && k - 1 < |t.ready[q]| && t.ready[q][k - 1] == s.ready[q][k] && Wait(t, q, k - 1) < Wait(s, q, k) {
        k' := k - 1;
      }
    }
  }

  lemma FirstEvent(s: Sched, es: seq<Event>, p: Pid)
    requires Valid(s) && AllCallable(es) && es != []
    ensures Callable(es[0]) && AllCallable(es[1..])
    ensures Gets(es) == (if es[0].GetEvent? then 1 else 0) + Gets(es[1..])
    ensures Dispatched(s, es, p) <==> (es[0].GetEvent? && Get(s).1 == Some(p)) || Dispatched(After(s, es[0]), es[1..], p)
  {
    hide Get, Put, Add;
  }

  /** As many calls as the bound says hand out the process at position k of level q. */
  predicate Suffices(s: Sched, es: seq<Event>, q: nat, k: nat)
    requires Valid(s) && AllCallable(es) && q < MAX_PRIO && k < |s.ready[q]|
  {
    Gets(es) >= Wait(s, q, k) ==> Dispatched(s, es, s.ready[q][k])
  }

  lemma {:induction false} WaitSuffices(s: Sched, es: seq<Event>, q: nat, k: nat)
    requires Valid(s) && AllCallable(es) && q < MAX_PRIO && k < |s.ready[q]|
    ensures Suffices(s, es, q, k)
    decreases |es|
  {
    if es == [] {
      assert Wait(s, q, k) > 0;
    } else {
      FirstEvent(s, es, s.ready[q][k]);
      var k' := EventProgress(s, es[0], q, k);
      if !(es[0].GetEvent? && Get(s).1 == Some(s.ready[q][k])) {
        hide Get, Wait, Suffices, Gets, Dispatched;
        WaitSuffices(After(s, es[0]), es[1..], q, k');
        SufficesBefore(s, es, q, k, k');
      }
    }
  }

  lemma SufficesBefore(s: Sched, es: seq<Event>, q: nat, k: nat, k': nat)
    requires Valid(s) && AllCallable(es) && q < MAX_PRIO && k < |s.ready[q]| && es != [] && Callable(es[0]) && AllCallable(es[1..])
    requires var t := After(s, es[0]);
             && k' < |t.ready[q]| && t.ready[q][k'] == s.ready[q][k]
             && Wait(t, q, k') + (if es[0].GetEvent? then 1 else 0) <= Wait(s, q, k) && Suffices(t, es[1..], q, k')
    ensures Suffices(s, es, q, k)
  {
    FirstEvent(s, es, s.ready[q][k]);
    hide Get, After, Wait, Valid, Gets, Dispatched;
  }

  // The starvation bound: whatever is added and put back meanwhile, the process at position k of
  // level q is handed out within 2(k + 1) * prod(141 - j | j < q) calls.
  lemma NoStarvation(s: Sched, es: seq<Event>, q: nat, k: nat)
    requires Valid(s) && AllCallable(es) && q < MAX_PRIO && k < |s.ready[q]|
    ensures Gets(es) >= (k + 1) * (2 * Settings(q)) ==> Dispatched(s, es, s.ready[q][k])
  {
    WaitBound(s, q, k);
    WaitSuffices(s, es, q, k);
  }

  // ---------- weighted share ----------

  function Served(s: Sched, es: seq<Event>, p: nat): nat
    requires Valid(s) && AllCallable(es)
    decreases |es|
  {
    if es == [] then 0
    else (if es[0].GetEvent? && Scan(s.ready, s.slot, 0).1 == Some(p) then 1 else 0) + Served(After(s, es[0]), es[1..], p)
  }

  /** The call refills level p: it passes p, finds it ready and out of slots. */
  predicate Refills(s: Sched, p: nat)
    requires Valid(s) && p < MAX_PRIO
  {
    p < Stop(Scan(s.ready, s.slot, 0).1) && s.ready[p] != []
  }

  function Refilled(s: Sched, es: seq<Event>, p: nat): nat
    requires Valid(s) && AllCallable(es) && p < MAX_PRIO
    decreases |es|
  {
    if es == [] then 0
    else (if es[0].GetEvent? && Refills(s, p) then 1 else 0) + Refilled(After(s, es[0]), es[1..], p)
  }

  lemma ShareStep(s: Sched, e: Event, p: nat)
    requires Valid(s) && Callable(e) && p < MAX_PRIO
    ensures After(s, e).slot[p] + (if e.GetEvent? && Scan(s.ready, s.slot, 0).1 == Some(p) then 1 else 0) ==
            s.slot[p] + (if e.GetEvent? && Refills(s, p) then MAX_PRIO - p else 0)
  {
    ScanFacts(s.ready, s.slot, 0);
  }

  lemma FirstShare(s: Sched, es: seq<Event>, p: nat)
    requires Valid(s) && AllCallable(es) && p < MAX_PRIO && es != [] && Callable(es[0]) && AllCallable(es[1..])
    ensures Served(s, es, p) ==
            (if es[0].GetEvent? && Scan(s.ready, s.slot, 0).1 == Some(p) then 1 else 0) + Served(After(s, es[0]), es[1..], p)
    ensures Refilled(s, es, p) == (if es[0].GetEvent? && Refills(s, p) then 1 else 0) + Refilled(After(s, es[0]), es[1..], p)
    ensures Run(s, es) == Run(After(s, es[0]), es[1..])
  {
    hide Scan, Refills, After;
  }

  /** Level p has been served as often as its slots and their refills say. */
  predicate ShareHolds(s: Sched, es: seq<Event>, p: nat)
    requires Valid(s) && AllCallable(es) && p < MAX_PRIO
  {
    Served(s, es, p) + Run(s, es).slot[p] == s.slot[p] + Refilled(s, es, p) * (MAX_PRIO - p)
  }

  lemma {:induction false} ShareBetween(s: Sched, es: seq<Event>, p: nat)
    requires Valid(s) && AllCallable(es) && p < MAX_PRIO
    ensures ShareHolds(s, es, p)
    decreases |es|
  {
    if es == [] {
    } else {
      assert Callable(es[0]) && AllCallable(es[1..]);
      ShareBetween(After(s, es[0]), es[1..], p);
      hide ShareHolds, After;
      ShareOneMore(s, es, p);
    }
  }

  lemma ShareOneMore(s: Sched, es: seq<Event>, p: nat)
    requires Valid(s) && AllCallable(es) && p < MAX_PRIO && es != [] && Callable(es[0]) && AllCallable(es[1..])
    requires ShareHolds(After(s, es[0]), es[1..], p)
    ensures ShareHolds(s, es, p)
  {
    var t := After(s, es[0]);
    ShareStep(s, es[0], p);
    FirstShare(s, es, p);
    ShareSum(s.slot[p], t.slot[p], Run(s, es).slot[p], if es[0].GetEvent? && Scan(s.ready, s.slot, 0).1 == Some(p) then 1 else 0,
             Served(t, es[1..], p), if es[0].GetEvent? && Refills(s, p) then 1 else 0, Refilled(t, es[1..], p), MAX_PRIO - p);
    hide Scan, After, Refills, Served, Refilled, Run, Valid;
  }

  lemma ShareSum(slot: nat, next: nat, last: nat, serves: nat, served: nat, refills: nat, refilled: nat, d: nat)
    requires refills <= 1 && next + serves == slot + (if refills == 1 then d else 0)
    requires served + last == next + refilled * d
    ensures serves + served + last == slot + (refills + refilled) * d
  {
    MulSucc(refilled, d);
  }

  // Since init_scheduler, level p has been served 140 - p times per refill, minus what is left.
  lemma WeightedShare(es: seq<Event>, p: nat)
    requires AllCallable(es) && p < MAX_PRIO
    ensures var left := Run(NewSched(), es).slot[p];
            0 <= left <= 140 - p
            && Served(NewSched(), es, p) == (Refilled(NewSched(), es, p) + 1) * (140 - p) - left
  {
    ShareBetween(NewSched(), es, p);
    MulSucc(Refilled(NewSched(), es, p), MAX_PRIO - p);
  }

  // Two calls in a row hand out nothing only when no process is ready at any level.
  lemma IdleTwice(s: Sched)
    requires Valid(s) && Get(s).1.None?
    ensures var t := Get(s).0;
            Valid(t) && t.ready == s.ready && (Get(t).1.None? <==> forall p :: 0 <= p < MAX_PRIO ==> s.ready[p] == [])
  {
    GetValid(s);
    ScanFacts(s.ready, s.slot, 0);
    var t := Get(s).0;
    ScanFacts(t.ready, t.slot, 0);
    if Get(t).1.Some? {
      assert s.ready[Scan(t.ready, t.slot, 0).1.value] != [];
    }
  }
}
