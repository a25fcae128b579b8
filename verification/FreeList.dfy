/**
 * The list of free regions of a vm area (src/libmem.c): sorted insertion, coalescing and
 * first fit, on lists that may hold the zero-size dummy nodes first fit leaves behind.
 */
module FreeList {

  datatype Region = Region(start: nat, end: nat)

  predicate Empty(r: Region) { r.start >= r.end }

  /** 1 if byte x lies in the region. */
  function Holds(r: Region, x: int): nat { if r.start <= x < r.end then 1 else 0 }

  /** How many regions of a list contain byte x. */
  function Count(l: seq<Region>, x: int): nat {
    if l == [] then 0 else Holds(l[0], x) + Count(l[1..], x)
  }

  lemma {:induction false} CountAppend(a: seq<Region>, b: seq<Region>, x: int)
    ensures Count(a + b, x) == Count(a, x) + Count(b, x)
  {
    if a == [] {
      assert a + b == b;
    } else {
      assert (a + b)[0] == a[0] && (a + b)[1..] == a[1..] + b;
      CountAppend(a[1..], b, x);
    }
  }

  lemma CountSplit(l: seq<Region>, i: nat, x: int)
    requires i < |l|
    ensures Count(l, x) == Count(l[..i], x) + Holds(l[i], x) + Count(l[i + 1..], x)
  {
    assert l == l[..i] + l[i..];
    CountAppend(l[..i], l[i..], x);
    assert l[i..][0] == l[i] && l[i..][1..] == l[i + 1..];
  }

  lemma CountUpdate(l: seq<Region>, i: nat, r: Region, x: int)
    requires i < |l|
    ensures Count(l[i := r], x) + Holds(l[i], x) == Count(l, x) + Holds(r, x)
  {
    CountSplit(l, i, x);
    CountSplit(l[i := r], i, x);
    assert l[i := r][..i] == l[..i] && l[i := r][i + 1..] == l[i + 1..];
  }

  lemma CountPair(l: seq<Region>, i: nat, j: nat, x: int)
    requires i < j < |l|
    ensures Count(l, x) >= Holds(l[i], x) + Holds(l[j], x)
  {
    CountSplit(l, i, x);
    CountSplit(l[i + 1..], j - i - 1, x);
  }

  ghost predicate WellFormed(l: seq<Region>) { forall r <- l :: r.start <= r.end }

  /** Every non-empty node starts at or after the end of every node before it. */
  ghost predicate Ordered(l: seq<Region>) {
    && WellFormed(l)
    && (forall i, j :: 0 <= i < j < |l| && !Empty(l[j]) ==> l[i].end <= l[j].start)
  }

  ghost predicate Apart(l: seq<Region>, r: Region) {
    forall n <- l :: !Empty(n) ==> n.end <= r.start || r.end <= n.start
  }

  lemma ApartFromCount(l: seq<Region>, r: Region)
    requires !Empty(r) && forall x :: Count(l, x) + Holds(r, x) <= 1
    ensures Apart(l, r)
  {
    forall n <- l | !Empty(n)
      ensures n.end <= r.start || r.end <= n.start
    {
      var i :| 0 <= i < |l| && l[i] == n;
      var x := if n.start <= r.start then r.start else n.start;
      CountSplit(l, i, x);
      assert Count(l, x) + Holds(r, x) <= 1;
    }
  }

  // ---------- insert_sorted_freerg ----------

  /** Where the walk stops: before the first node that does not start below `r`. */
  function Position(l: seq<Region>, r: Region): (p: nat)
    ensures p <= |l|
    ensures forall i :: 0 <= i < p ==> l[i].start < r.start
    ensures p < |l| ==> l[p].start >= r.start
  {
    if l == [] || l[0].start >= r.start then 0 else 1 + Position(l[1..], r)
  }

  function Inserted(l: seq<Region>, r: Region): seq<Region> {
    var p := Position(l, r);
    l[..p] + [r] + l[p..]
  }

  lemma InsertedCount(l: seq<Region>, r: Region, x: int)
    ensures Count(Inserted(l, r), x) == Count(l, x) + Holds(r, x)
  {
    var p := Position(l, r);
    assert l == l[..p] + l[p..];
    CountAppend(l[..p], l[p..], x);
    CountAppend(l[..p] + [r], l[p..], x);
    CountAppend(l[..p], [r], x);
  }

  lemma AroundPosition(l: seq<Region>, r: Region)
    requires Ordered(l) && !Empty(r) && Apart(l, r)
    ensures forall i :: 0 <= i < Position(l, r) ==> l[i].end <= r.start
    ensures forall i :: Position(l, r) <= i < |l| && !Empty(l[i]) ==> r.end <= l[i].start
  {
    assert forall i :: 0 <= i < |l| ==> l[i] in l;
  }

  // Dummies may sit anywhere, yet the walk finds a place that keeps the order.
  lemma InsertedOrdered(l: seq<Region>, r: Region)
    requires Ordered(l) && !Empty(r) && Apart(l, r)
    ensures Ordered(Inserted(l, r))
  {
    var p, m := Position(l, r), Inserted(l, r);
    AroundPosition(l, r);
    hide Apart, Position;
    assert forall n <- m :: n == r || n in l;
    forall i, j | 0 <= i < j < |m| && !Empty(m[j])
      ensures m[i].end <= m[j].start
    {
      assert m[i] == (if i < p then l[i] else if i == p then r else l[i - 1]);
      assert m[j] == (if j < p then l[j] else if j == p then r else l[j - 1]);
    }
  }

  // ---------- coalesce_freerg_list ----------

  function MergedHead(l: seq<Region>): seq<Region>
    requires |l| >= 2
  {
    [Region(l[0].start, l[1].end)] + l[2..]
  }

  /** Merge the head with its successor while they touch, then go on behind it. */
  function Coalesced(l: seq<Region>): seq<Region>
    decreases |l|
  {
    if |l| < 2 then l
    else if l[0].end == l[1].start then Coalesced(MergedHead(l))
    else [l[0]] + Coalesced(l[1..])
  }

  lemma {:induction false} CoalescedCount(l: seq<Region>, x: int)
    requires WellFormed(l)
    ensures Count(Coalesced(l), x) == Count(l, x)
    decreases |l|
  {
    if |l| >= 2 {
      assert l[0] in l && l[1] in l;
      assert l[1..][0] == l[1] && l[1..][1..] == l[2..];
      if l[0].end == l[1].start {
        assert MergedHead(l)[1..] == l[2..];
        CoalescedCount(MergedHead(l), x);
      } else {
        CoalescedCount(l[1..], x);
        assert Coalesced(l)[1..] == Coalesced(l[1..]);
      }
    }
  }

  lemma MergeOrdered(l: seq<Region>)
    requires Ordered(l) && |l| >= 2 && l[0].end == l[1].start
    ensures Ordered(MergedHead(l))
  {
    assert l[0] in l && l[1] in l;
    assert forall i :: 1 <= i < |MergedHead(l)| ==> MergedHead(l)[i] == l[i + 1] && l[i + 1] in l;
  }

  ghost predicate From(l: seq<Region>, b: int) { forall n <- l :: !Empty(n) ==> b <= n.start }

  lemma MergeFrom(l: seq<Region>, b: int)
    requires Ordered(l) && From(l, b) && |l| >= 2 && l[0].end == l[1].start
    ensures From(MergedHead(l), b)
  {
    assert l[0] in l && l[1] in l;
    assert forall n <- l[2..] :: n in l;
  }

  lemma TailOrdered(l: seq<Region>, b: int)
    requires Ordered(l) && From(l, b) && l != []
    ensures Ordered(l[1..]) && From(l[1..], b) && From(l[1..], l[0].end)
  {
    assert forall n <- l[1..] :: n in l;
  }

  lemma ConsOrdered(r: Region, l: seq<Region>, b: int)
    requires r.start <= r.end && Ordered(l) && From(l, r.end) && From(l, b) && (Empty(r) || b <= r.start)
    ensures Ordered([r] + l) && From([r] + l, b)
  {
    forall j | 0 < j < |[r] + l| && !Empty(([r] + l)[j])
      ensures r.end <= ([r] + l)[j].start
    {
      assert ([r] + l)[j] == l[j - 1] && l[j - 1] in l;
    }
  }

  lemma {:induction false} CoalescedOrdered(l: seq<Region>, b: int)
    requires Ordered(l) && From(l, b)
    ensures Ordered(Coalesced(l)) && forall c: int :: From(l, c) ==> From(Coalesced(l), c)
    decreases |l|
  {
    if |l| >= 2 {
      if l[0].end == l[1].start {
        MergeOrdered(l);
        forall c: int | From(l, c)
          ensures From(MergedHead(l), c)
        {
          MergeFrom(l, c);
        }
        MergeFrom(l, b);
        CoalescedOrdered(MergedHead(l), b);
      } else {
        assert l[0] in l;
        TailOrdered(l, b);
        CoalescedOrdered(l[1..], b);
        forall c: int | From(l, c)
          ensures From(Coalesced(l), c) && Ordered(Coalesced(l))
        {
          TailOrdered(l, c);
          ConsOrdered(l[0], Coalesced(l[1..]), c);
        }
      }
    }
  }

  // ---------- enlist_vm_freerg_list ----------

  function Enlisted(l: seq<Region>, r: Region): seq<Region> {
    if Empty(r) then l else Coalesced(Inserted(l, r))
  }

  lemma EnlistedCount(l: seq<Region>, r: Region, x: int)
    requires WellFormed(l)
    ensures Count(Enlisted(l, r), x) == Count(l, x) + Holds(r, x)
  {
    InsertedCount(l, r, x);
    if !Empty(r) {
      assert forall n <- Inserted(l, r) :: n == r || n in l;
      CoalescedCount(Inserted(l, r), x);
    }
  }

  lemma EnlistedOrdered(l: seq<Region>, r: Region)
    requires Ordered(l) && (Empty(r) || Apart(l, r))
    ensures Ordered(Enlisted(l, r))
  {
    if !Empty(r) {
      InsertedOrdered(l, r);
      CoalescedOrdered(Inserted(l, r), 0);
    }
  }

  // ---------- canonical form ----------

  /** Non-empty runs, each ending strictly below the next start. */
  ghost predicate Canonical(l: seq<Region>) {
    && (forall n <- l :: !Empty(n))
    && (forall i :: 0 <= i < |l| - 1 ==> l[i].end < l[i + 1].start)
  }

  lemma {:induction false} CoalescedCanonical(l: seq<Region>)
    requires Ordered(l) && forall n <- l :: !Empty(n)
    ensures Canonical(Coalesced(l))
    ensures l != [] ==> Coalesced(l) != [] && Coalesced(l)[0].start == l[0].start
    decreases |l|
  {
    if |l| >= 2 {
      assert l[0] in l && l[1] in l;
      if l[0].end == l[1].start {
        MergeOrdered(l);
        assert forall n <- l[2..] :: n in l;
        CoalescedCanonical(MergedHead(l));
      } else {
        TailOrdered(l, 0);
        assert forall n <- l[1..] :: n in l;
        CoalescedCanonical(l[1..]);
        ConsCanonical(l[0], Coalesced(l[1..]));
      }
    }
  }

  lemma ConsCanonical(r: Region, l: seq<Region>)
    requires Canonical(l) && l != [] && !Empty(r) && r.end < l[0].start
    ensures Canonical([r] + l)
  {
    assert forall i :: 0 < i < |[r] + l| ==> ([r] + l)[i] == l[i - 1];
  }

  // From any sorted disjoint list without empty nodes, enlisting a disjoint region yields the
  // maximal runs of the old bytes plus the new ones.
  lemma EnlistedCanonical(l: seq<Region>, r: Region)
    requires Ordered(l) && (forall n <- l :: !Empty(n)) && !Empty(r) && Apart(l, r)
    ensures Canonical(Enlisted(l, r))
    ensures forall x :: Count(Enlisted(l, r), x) == Count(l, x) + Holds(r, x)
  {
    InsertedOrdered(l, r);
    assert forall n <- Inserted(l, r) :: n == r || n in l;
    CoalescedCanonical(Inserted(l, r));
    forall x
      ensures Count(Enlisted(l, r), x) == Count(l, x) + Holds(r, x)
    {
      EnlistedCount(l, r, x);
    }
  }

  lemma {:induction false} CountBelow(l: seq<Region>, x: int)
    requires Canonical(l) && (l == [] || x < l[0].start)
    ensures Count(l, x) == 0
  {
    if |l| >= 1 {
      assert l[0] in l && forall n <- l[1..] :: n in l;
      if |l| >= 2 { assert l[1..][0] == l[1]; }
      CountBelow(l[1..], x);
    }
  }

  // The runs are determined by the bytes: a canonical list is the only one with its contents.
  lemma {:induction false} CanonicalUnique(a: seq<Region>, b: seq<Region>)
    requires Canonical(a) && Canonical(b) && forall x :: Count(a, x) == Count(b, x)
    ensures a == b
  {
    if a == [] || b == [] {
      HoldsOwnStart(a);
      HoldsOwnStart(b);
    } else {
      FirstRunsAgree(a, b);
      FirstRunsAgree(b, a);
      TailCanonical(a);
      TailCanonical(b);
      assert a[0] in a && b[0] in b;
      forall x
        ensures Count(a[1..], x) == Count(b[1..], x)
      {
        assert Count(a, x) == Count(b, x);
      }
      CanonicalUnique(a[1..], b[1..]);
      assert a == [a[0]] + a[1..] && b == [b[0]] + b[1..];
    }
  }

  lemma HoldsOwnStart(l: seq<Region>)
    requires Canonical(l)
    ensures l != [] ==> Count(l, l[0].start) > 0
  {
    assert l != [] ==> l[0] in l;
  }

  lemma TailCanonical(l: seq<Region>)
    requires Canonical(l) && l != []
    ensures Canonical(l[1..])
  {
    assert forall n <- l[1..] :: n in l;
  }

  lemma FirstRunsAgree(a: seq<Region>, b: seq<Region>)
    requires a != [] && b != [] && Canonical(a) && Canonical(b) && forall x :: Count(a, x) == Count(b, x)
    ensures a[0].start >= b[0].start
    ensures a[0].start == b[0].start ==> a[0].end <= b[0].end
  {
    assert a[0] in a && b[0] in b;
    assert Count(a, a[0].start) > 0;
    if a[0].start < b[0].start {
      CountBelow(b, a[0].start);
    }
    if a[0].start == b[0].start && a[0].end > b[0].end {
      assert Count(a, b[0].end) > 0;
      if |b| >= 2 { assert b[1..][0] == b[1]; }
      assert forall n <- b[1..] :: n in b;
      CountBelow(b[1..], b[0].end);
    }
  }

  // ---------- get_free_vmrg_area ----------

  /** The size is an int; a sum below 0 is a huge address in the source's unsigned arithmetic. */
  predicate Fits(r: Region, size: int) { 0 <= r.start + size <= r.end }

  /** The first node that is long enough, or |l|. */
  function FitIndex(l: seq<Region>, size: int): (i: nat)
    ensures i <= |l|
    ensures forall j :: 0 <= j < i ==> !Fits(l[j], size)
    ensures i < |l| ==> Fits(l[i], size)
  {
    if l == [] || Fits(l[0], size) then 0 else 1 + FitIndex(l[1..], size)
  }

  /** The list after `size` bytes are cut off the front of node i; the last node stays as a dummy. */
  function Taken(l: seq<Region>, i: nat, size: int): seq<Region>
    requires i < |l| && Fits(l[i], size)
  {
    if l[i].start + size < l[i].end then l[i := Region(l[i].start + size, l[i].end)]
    else if i + 1 < |l| then l[..i] + l[i + 1..]
    else l[i := Region(l[i].end, l[i].end)]
  }

  lemma TakenCount(l: seq<Region>, i: nat, size: nat, x: int)
    requires i < |l| && Fits(l[i], size)
    ensures Count(Taken(l, i, size), x) + Holds(Region(l[i].start, l[i].start + size), x) == Count(l, x)
  {
    CountSplit(l, i, x);
    if l[i].start + size < l[i].end {
      CountUpdate(l, i, Region(l[i].start + size, l[i].end), x);
    } else if i + 1 < |l| {
      CountAppend(l[..i], l[i + 1..], x);
    } else {
      CountUpdate(l, i, Region(l[i].end, l[i].end), x);
    }
  }

  // A node that is used up disappears, unless it is the last: that one stays, empty, where it
  // ended. The end of the list does not move, and no other node changes.
  lemma TakenShape(l: seq<Region>, i: nat, size: nat)
    requires i < |l| && Fits(l[i], size)
    ensures var m := Taken(l, i, size);
            && |m| == (if l[i].start + size == l[i].end && i + 1 < |l| then |l| - 1 else |l|)
            && m[|m| - 1].end == l[|l| - 1].end && m[..i] == l[..i] && m[|m| - (|l| - i - 1)..] == l[i + 1..]
            && (|m| == |l| ==> m[i].end == l[i].end && m[i].end - m[i].start == l[i].end - l[i].start - size)
  {}

  lemma TakenOrdered(l: seq<Region>, i: nat, size: nat)
    requires Ordered(l) && i < |l| && Fits(l[i], size)
    ensures Ordered(Taken(l, i, size))
  {
    var m, node := Taken(l, i, size), l[i];
    forall n <- m
      ensures n.start <= n.end
    {
      assert n in l || n == Region(node.start + size, node.end) || n == Region(node.end, node.end);
    }
  }

  // First fit by list order is first fit by address, dummies notwithstanding.
  lemma FirstFitIsLowest(l: seq<Region>, size: nat, j: nat)
    requires Ordered(l) && size > 0 && j < |l| && Fits(l[j], size)
    ensures FitIndex(l, size) < |l| && l[FitIndex(l, size)].start <= l[j].start
  {
    var i := FitIndex(l, size);
    assert l[i] in l && l[j] in l;
  }

  // ---------- runs on one list ----------

  datatype ListOp = Enlist(region: Region) | FirstFit(size: nat)

  /** What callers keep: a freed region is non-empty and not free already, a request is positive. */
  ghost predicate ListCallable(l: seq<Region>, op: ListOp) {
    match op
    case Enlist(r) => !Empty(r) && Apart(l, r)
    case FirstFit(size) => size > 0
  }

  function ListAfter(l: seq<Region>, op: ListOp): seq<Region> {
    match op
    case Enlist(r) => Enlisted(l, r)
    case FirstFit(size) =>
      var i := FitIndex(l, size);
      if i < |l| then Taken(l, i, size) else l
  }

  function ListRun(ops: seq<ListOp>): seq<Region> {
    if ops == [] then [] else ListAfter(ListRun(ops[..|ops| - 1]), ops[|ops| - 1])
  }

  ghost predicate ListCanRun(ops: seq<ListOp>) {
    ops == [] || (ListCanRun(ops[..|ops| - 1]) && ListCallable(ListRun(ops[..|ops| - 1]), ops[|ops| - 1]))
  }

  lemma {:induction false} ListRunOrdered(ops: seq<ListOp>)
    requires ListCanRun(ops)
    ensures Ordered(ListRun(ops))
  {
    if ops == [] {
    } else {
      var l, op := ListRun(ops[..|ops| - 1]), ops[|ops| - 1];
      ListRunOrdered(ops[..|ops| - 1]);
      match op
      case Enlist(r) => EnlistedOrdered(l, r);
      case FirstFit(size) =>
        if FitIndex(l, size) < |l| { TakenOrdered(l, FitIndex(l, size), size); }
    }
  }

  // In every reachable list, dummies included, a request is served from the lowest-addressed node
  // that is long enough, and refused exactly when no node is.
  lemma FitsLowestOrNone(ops: seq<ListOp>, size: nat)
    requires ListCanRun(ops) && size > 0
    ensures var l := ListRun(ops); var i := FitIndex(l, size);
            if i < |l| then Fits(l[i], size) && forall j :: 0 <= j < |l| && Fits(l[j], size) ==> l[i].start <= l[j].start
            else forall j :: 0 <= j < |l| ==> !Fits(l[j], size)
  {
    ListRunOrdered(ops);
    var l := ListRun(ops);
    forall j | 0 <= j < |l| && Fits(l[j], size)
      ensures l[FitIndex(l, size)].start <= l[j].start
    {
      FirstFitIsLowest(l, size, j);
    }
  }
}
