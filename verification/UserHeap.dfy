/**
 * Allocation and release of user regions (src/libmem.c `__alloc` and `__free`, src/mm-vm.c
 * `inc_vma_limit`) on one process's symbol table, free list and break.
 *
 * `inc_vma_limit` ends by overwriting the first free node with [sbrk, vm_end). The parameter
 * `rewrite` says whether that assignment is made: true is the code as written, false is the
 * design its own comment states (src/mm64.c:660-664), where the free list holds only regions
 * that were allocated before.
 */
module UserHeap {
  import opened Words
  import opened FreeList

  const PAGE: nat := 4096                // PAGING64_PAGESZ
  const VM_END: nat := 512 * 4096        // PAGING64_MAX_PGN * PAGING64_PAGESZ
  const SYMBOLS: nat := 30               // PAGING_MAX_SYMTBL_SZ
  const MAX_INT: nat := 0x7fff_ffff
  const ADDRS: nat := 0x1_0000_0000_0000_0000  // addr_t is a uint64_t

  /** `lost` lists regions whose table entry was overwritten by a later allocation. */
  datatype Heap = Heap(sym: seq<Region>, free: seq<Region>, lost: seq<Region>, sbrk: nat)

  const NO_REGION := Region(0, 0)

  function Blank(n: nat): (sym: seq<Region>)
    ensures |sym| == n && forall r <- sym :: r == NO_REGION
  {
    if n == 0 then [] else Blank(n - 1) + [NO_REGION]
  }

  /** What `init_mm` sets up. */
  function NewHeap(): Heap { Heap(Blank(SYMBOLS), [], [], 0) }

  /** What an addr_t holds after a sum with the mathematical value n. */
  function Wrap(n: int): (w: nat)
    ensures w < ADDRS && (0 <= n < ADDRS ==> w == n)
    ensures (ADDRS <= n < 2 * ADDRS ==> w == n - ADDRS) && (n < 0 <= n + ADDRS ==> w == n + ADDRS)
  {
    n % ADDRS
  }

  /** PAGING64_PAGE_ALIGNSZ, whose sum can wrap. */
  function Align(n: nat): nat { Wrap(n + PAGE - 1) / PAGE * PAGE }

  lemma AlignFacts(n: nat)
    requires n < ADDRS
    ensures Align(n) % PAGE == 0 && Align(n) <= ADDRS - PAGE && Align(Align(n)) == Align(n)
    ensures if n <= ADDRS - PAGE then n <= Align(n) < n + PAGE else Align(n) == 0
  {}

  /** C's conversion of an addr_t to int. */
  function IntOf(n: nat): (i: int)
    ensures n <= MAX_INT ==> i == n
    ensures ADDRS - MAX_INT <= n < ADDRS ==> i == n - ADDRS
  {
    var low := n % 0x1_0000_0000;
    if low <= MAX_INT then low else low - 0x1_0000_0000
  }

  // For nodes in the lower half of the address space, the comparison of first fit on wrapping
  // sums is the one on mathematical sums.
  lemma FitsUnsigned(n: Region, size: int)
    requires n.start < ADDRS / 2 && n.end < ADDRS / 2 && size <= MAX_INT && size + MAX_INT >= -1
    ensures Fits(n, size) <==> Wrap(n.start + size) <= n.end
  {
    hide Wrap;
  }

  // ---------- the operations ----------

  /** The increment that `inc_vma_limit` makes of its argument: aligned, and converted to int. */
  function IncAmt(incSz: nat): int { IntOf(Align(incSz)) }

  /** `inc_vma_limit`; an area that does not end above its start is rejected. */
  function GrowBreak(h: Heap, incSz: nat, rewrite: bool): Heap {
    var brk := Wrap(h.sbrk + IncAmt(incSz));
    if h.sbrk >= brk then h
    else h.(sbrk := brk, free := if rewrite && h.free != [] then h.free[0 := Region(brk, VM_END)] else h.free)
  }

  function Bind(h: Heap, rgid: nat, r: Region): Heap
    requires rgid < |h.sym|
  {
    h.(sym := h.sym[rgid := r], lost := h.lost + [h.sym[rgid]])
  }

  /** `__alloc`: `listed` says whether the syscall finds the caller's pid among the running processes. */
  function Alloc(h: Heap, rgid: nat, size: nat, listed: bool, rewrite: bool): (r: (Heap, Option<nat>))
    requires rgid < |h.sym|
  {
    var i := FitIndex(h.free, IntOf(size));
    if i < |h.free| then
      var start := h.free[i].start;
      (Bind(h.(free := Taken(h.free, i, IntOf(size))), rgid, Region(start, Wrap(start + size))), Some(start))
    else if Wrap(h.sbrk + size) > VM_END || !listed then (h, None)
    else (AllocAtBreak(h, rgid, size, rewrite), Some(h.sbrk))
  }

  /** The end of `__alloc`: move the break, bind the region below it, free the rest of its last page. */
  function AllocAtBreak(h: Heap, rgid: nat, size: nat, rewrite: bool): Heap
    requires rgid < |h.sym|
  {
    var brk := Wrap(h.sbrk + Align(size));
    var g := Bind(GrowBreak(h, Align(size), rewrite), rgid, Region(h.sbrk, Wrap(h.sbrk + size))).(sbrk := brk);
    if size < Align(size) then g.(free := Enlisted(g.free, Region(Wrap(h.sbrk + size), brk))) else g
  }

  /** `__free`; the result says whether it returned 0. */
  function Release(h: Heap, rgid: int): (Heap, bool)
    requires |h.sym| == SYMBOLS && rgid != SYMBOLS
  {
    if rgid < 0 || rgid > SYMBOLS || h.sym[rgid] == NO_REGION then (h, false)
    else (h.(sym := h.sym[rgid := NO_REGION], free := Enlisted(h.free, h.sym[rgid])), true)
  }

  /** The allocation reaches `inc_vma_limit` and moves the break. */
  predicate Grows(h: Heap, size: nat, listed: bool) {
    FitIndex(h.free, IntOf(size)) == |h.free| && h.sbrk + size <= VM_END && listed && size > 0
  }

  /** The sum of break and size wraps around, and so passes the test against vm_end. */
  predicate Wraps(h: Heap, size: nat, listed: bool) {
    FitIndex(h.free, IntOf(size)) == |h.free| && h.sbrk + size >= ADDRS && Wrap(h.sbrk + size) <= VM_END && listed
  }

  /** Then the break moves down, unless even the aligned size wraps to 0. */
  predicate Lowers(h: Heap, size: nat, listed: bool) { Wraps(h, size, listed) && size <= ADDRS - PAGE }

  // ---------- what a heap has to satisfy ----------

  ghost function Owners(h: Heap, x: int): nat { Count(h.sym, x) + Count(h.free, x) + Count(h.lost, x) }

  /** Live, free and lost regions are pairwise disjoint and together cover exactly [0, sbrk). */
  ghost predicate Tiled(h: Heap) {
    forall x :: Owners(h, x) == if 0 <= x < h.sbrk then 1 else 0
  }

  predicate BreakOk(h: Heap) { h.sbrk % PAGE == 0 && h.sbrk <= VM_END }

  ghost predicate InArea(l: seq<Region>) { forall r <- l :: r.end <= VM_END }

  ghost predicate Sound(h: Heap) {
    |h.sym| == SYMBOLS && BreakOk(h) && WellFormed(h.sym) && Ordered(h.free) && InArea(h.free) && Tiled(h)
  }

  lemma TakenInArea(l: seq<Region>, i: nat, size: nat)
    requires InArea(l) && i < |l| && Fits(l[i], size)
    ensures InArea(Taken(l, i, size))
  {
    assert forall r <- Taken(l, i, size) :: r.end == l[i].end || r in l;
  }

  lemma {:induction false} CoalescedInArea(l: seq<Region>)
    requires InArea(l)
    ensures InArea(Coalesced(l))
    decreases |l|
  {
    if |l| >= 2 {
      if l[0].end == l[1].start {
        assert forall r <- MergedHead(l) :: r.end == l[1].end || r in l;
        CoalescedInArea(MergedHead(l));
      } else {
        assert forall r <- l[1..] :: r in l;
        CoalescedInArea(l[1..]);
      }
    }
  }

  lemma EnlistedInArea(l: seq<Region>, r: Region)
    requires InArea(l) && (!Empty(r) ==> r.end <= VM_END)
    ensures InArea(Enlisted(l, r))
  {
    if !Empty(r) {
      assert forall n <- Inserted(l, r) :: n == r || n in l;
      CoalescedInArea(Inserted(l, r));
    }
  }

  lemma {:induction false} AllEmptyCount(l: seq<Region>, x: int)
    requires forall r <- l :: Empty(r)
    ensures Count(l, x) == 0
  {
    if l == [] {
    } else {
      assert l[0] in l && forall r <- l[1..] :: r in l;
      AllEmptyCount(l[1..], x);
    }
  }

  lemma NewHeapSound()
    ensures Sound(NewHeap())
  {
    forall x
      ensures Owners(NewHeap(), x) == 0
    {
      AllEmptyCount(NewHeap().sym, x);
    }
  }

  // The tiling says what it is meant to say: a byte in two of the regions is impossible.
  lemma TiledDisjoint(h: Heap, i: nat, j: nat, k: nat)
    requires Tiled(h) && i < j < |h.sym| && k < |h.free|
    ensures forall x :: Holds(h.sym[i], x) + Holds(h.sym[j], x) <= 1
    ensures forall x :: Holds(h.sym[i], x) + Holds(h.free[k], x) <= 1
  {
    forall x
      ensures Holds(h.sym[i], x) + Holds(h.sym[j], x) <= 1 && Holds(h.sym[i], x) + Holds(h.free[k], x) <= 1
    {
      CountPair(h.sym, i, j, x);
      CountSplit(h.free, k, x);
      assert Owners(h, x) <= 1;
    }
  }

  // ---------- each step ----------

  lemma BindOwners(h: Heap, rgid: nat, r: Region, x: int)
    requires rgid < |h.sym|
    ensures Owners(Bind(h, rgid, r), x) == Owners(h, x) + Holds(r, x)
  {
    CountUpdate(h.sym, rgid, r, x);
    CountAppend(h.lost, [h.sym[rgid]], x);
  }

  // What an allocation that finds no node does: nothing, or the growth at the break.
  lemma NoFit(h: Heap, rgid: nat, size: nat, listed: bool, rewrite: bool)
    requires rgid < |h.sym| && BreakOk(h) && size < ADDRS && FitIndex(h.free, IntOf(size)) == |h.free|
    ensures var at := listed && (h.sbrk + size <= VM_END || Wraps(h, size, listed));
            Alloc(h, rgid, size, listed, rewrite) == if at then (AllocAtBreak(h, rgid, size, rewrite), Some(h.sbrk)) else (h, None)
    ensures h.sbrk + size >= ADDRS && listed ==> Wraps(h, size, listed)
  {
    hide AllocAtBreak, IntOf, FitIndex, Wrap;
  }

  // The break stays page aligned and within the area, whatever the size and the list; it moves
  // down exactly in the case of `Lowers`. Where it grows, the two updates of the break in
  // `inc_vma_limit` and `__alloc` agree.
  lemma AllocBreak(h: Heap, rgid: nat, size: nat, listed: bool, rewrite: bool)
    requires rgid < |h.sym| && BreakOk(h) && size < ADDRS
    ensures var g := Alloc(h, rgid, size, listed, rewrite).0;
            && BreakOk(g) && |g.sym| == |h.sym|
            && (g.sbrk > h.sbrk <==> Grows(h, size, listed)) && (g.sbrk < h.sbrk <==> Lowers(h, size, listed))
            && (Grows(h, size, listed) ==> g.sbrk == h.sbrk + Align(size) == GrowBreak(h, Align(size), rewrite).sbrk)
  {
    if FitIndex(h.free, IntOf(size)) == |h.free| {
      NoFit(h, rgid, size, listed, rewrite);
      BreakMoves(h.sbrk, size);
      AtBreakSbrk(h, rgid, size, rewrite);
      hide Alloc;
    }
    hide FitIndex, Taken, Align, Wrap, IntOf, GrowBreak, AllocAtBreak;
    if Grows(h, size, listed) {
      GrowBreakBy(h, size, rewrite);
    }
  }

  lemma BreakMoves(sbrk: nat, size: nat)
    requires sbrk % PAGE == 0 && sbrk <= VM_END && size < ADDRS
    ensures var brk, in_area, wraps := Wrap(sbrk + Align(size)), sbrk + size <= VM_END, sbrk + size >= ADDRS;
            && (in_area ==> brk == sbrk + Align(size))
            && (in_area || wraps ==> brk % PAGE == 0 && brk <= VM_END)
            && (in_area || wraps ==> (brk > sbrk <==> in_area && size > 0) && (brk < sbrk <==> wraps && size <= ADDRS - PAGE))
  {
    AlignFacts(size);
    hide Align, Wrap;
  }

  lemma AtBreakSbrk(h: Heap, rgid: nat, size: nat, rewrite: bool)
    requires rgid < |h.sym|
    ensures var g := AllocAtBreak(h, rgid, size, rewrite);
            g.sbrk == Wrap(h.sbrk + Align(size)) && |g.sym| == |h.sym|
  {
    hide Align, Wrap, IntOf, Enlisted;
  }

  // For an increment within the area the conversion to int changes nothing.
  lemma GrowBreakBy(h: Heap, size: nat, rewrite: bool)
    requires BreakOk(h) && 0 < size && h.sbrk + size <= VM_END
    ensures h.sbrk + Align(size) <= VM_END
    ensures GrowBreak(h, Align(size), rewrite) == h.(sbrk := h.sbrk + Align(size), free := GrownFree(h, size, rewrite))
  {
    AlignFacts(size);
    hide Align, Wrap, IntOf;
  }

  /**
   * The condition under which an allocation does no harm: it does not rewrite a useful list head,
   * it is not served from the list by a size that the conversion to int has changed, and the sum
   * of the break and the size does not wrap around.
   */
  predicate Harmless(h: Heap, size: nat, listed: bool, rewrite: bool) {
    && (rewrite && h.free != [] && Grows(h, size, listed) ==>
          h.sbrk + Align(size) == VM_END && forall r <- h.free :: Empty(r))
    && (size > MAX_INT ==> FitIndex(h.free, IntOf(size)) == |h.free|)
    && !Wraps(h, size, listed)
  }

  lemma AllocFitSound(h: Heap, rgid: nat, size: nat, listed: bool, rewrite: bool)
    requires Sound(h) && rgid < SYMBOLS && size <= MAX_INT && FitIndex(h.free, size) < |h.free|
    ensures Sound(Alloc(h, rgid, size, listed, rewrite).0)
  {
    var i := FitIndex(h.free, size);
    var r, rest := Region(h.free[i].start, h.free[i].start + size), h.(free := Taken(h.free, i, size));
    assert h.free[i] in h.free;
    assert Alloc(h, rgid, size, listed, rewrite).0 == Bind(rest, rgid, r) by { hide Taken, IntOf, Wrap, Sound; }
    TakenOrdered(h.free, i, size);
    TakenInArea(h.free, i, size);
    BoundWellFormed(h.sym, rgid, r);
    hide Alloc, Taken, FitIndex;
    forall x
      ensures Owners(Bind(rest, rgid, r), x) == if 0 <= x < h.sbrk then 1 else 0
    {
      TakenCount(h.free, i, size, x);
      BindOwners(rest, rgid, r, x);
      assert Owners(h, x) == if 0 <= x < h.sbrk then 1 else 0;
    }
  }

  // A converted size serves a region that ends far behind the area, or before its own start.
  lemma TruncatedUnsound(h: Heap, rgid: nat, size: nat, listed: bool, rewrite: bool)
    requires Sound(h) && rgid < SYMBOLS && MAX_INT < size < ADDRS && FitIndex(h.free, IntOf(size)) < |h.free|
    ensures !Sound(Alloc(h, rgid, size, listed, rewrite).0)
  {
    var g, i := Alloc(h, rgid, size, listed, rewrite).0, FitIndex(h.free, IntOf(size));
    var r := Region(h.free[i].start, Wrap(h.free[i].start + size));
    assert h.free[i] in h.free;
    FitBinds(h, rgid, size, listed, rewrite);
    hide Alloc, FitIndex, IntOf, Wrap, Ordered, Tiled, BreakOk;
    OutsideUnsound(g, rgid, r);
  }

  lemma FitBinds(h: Heap, rgid: nat, size: nat, listed: bool, rewrite: bool)
    requires rgid < |h.sym| && FitIndex(h.free, IntOf(size)) < |h.free|
    ensures var g, i := Alloc(h, rgid, size, listed, rewrite).0, FitIndex(h.free, IntOf(size));
            g.sym == h.sym[rgid := Region(h.free[i].start, Wrap(h.free[i].start + size))]
  {
    hide IntOf, Wrap, FitIndex, Taken;
  }

  // A live region that ends behind the area, or before its start, makes a heap unsound.
  lemma OutsideUnsound(g: Heap, rgid: nat, r: Region)
    requires rgid < |g.sym| && g.sym[rgid] == r && (r.end < r.start || r.start <= VM_END < r.end)
    ensures !Sound(g)
  {
    assert r in g.sym;
    if r.start <= r.end {
      CountSplit(g.sym, rgid, r.end - 1);
      assert Owners(g, r.end - 1) >= 1;
    }
  }

  // A wrapped sum binds a region that ends before its start.
  lemma WrappedUnsound(h: Heap, rgid: nat, size: nat, rewrite: bool)
    requires Sound(h) && rgid < SYMBOLS && size < ADDRS && Wraps(h, size, true)
    ensures !Sound(Alloc(h, rgid, size, true, rewrite).0)
  {
    var g := Alloc(h, rgid, size, true, rewrite).0;
    hide Enlisted, Align, IntOf, FitIndex;
    assert g.sym[rgid] in g.sym && g.sym[rgid].end < g.sym[rgid].start;
  }

  lemma BoundWellFormed(sym: seq<Region>, rgid: nat, r: Region)
    requires WellFormed(sym) && rgid < |sym| && r.start <= r.end
    ensures WellFormed(sym[rgid := r])
  {
    assert forall n <- sym[rgid := r] :: n == r || n in sym;
  }

  /** The list that a growing allocation inserts its remainder into. */
  function GrownFree(h: Heap, size: nat, rewrite: bool): seq<Region> {
    if rewrite && h.free != [] then h.free[0 := Region(h.sbrk + Align(size), VM_END)] else h.free
  }

  function Remainder(h: Heap, size: nat): Region { Region(h.sbrk + size, h.sbrk + Align(size)) }

  lemma AtBreakParts(h: Heap, rgid: nat, size: nat, rewrite: bool)
    requires rgid < |h.sym| && size > 0 && h.sbrk + size <= VM_END && BreakOk(h)
    ensures var g := AllocAtBreak(h, rgid, size, rewrite);
            && g.sbrk == h.sbrk + Align(size) && g.lost == h.lost + [h.sym[rgid]]
            && g.sym == h.sym[rgid := Region(h.sbrk, h.sbrk + size)]
            && g.free == Enlisted(GrownFree(h, size, rewrite), Remainder(h, size))
  {
    AlignFacts(size);
    GrowBreakBy(h, size, rewrite);
    hide GrowBreak, Align, Wrap, Enlisted, GrownFree;
    assert Wrap(h.sbrk + size) == h.sbrk + size && Wrap(h.sbrk + Align(size)) == h.sbrk + Align(size);
    if size == Align(size) {
      assert Empty(Remainder(h, size));
      NothingEnlisted(GrownFree(h, size, rewrite), Remainder(h, size));
    }
  }

  lemma NothingEnlisted(l: seq<Region>, r: Region)
    requires Empty(r)
    ensures Enlisted(l, r) == l
  {}

  lemma GrownFreeWellFormed(h: Heap, size: nat, rewrite: bool)
    requires WellFormed(h.free) && BreakOk(h) && h.sbrk + size <= VM_END
    ensures WellFormed(GrownFree(h, size, rewrite))
  {
    AlignFacts(size);
    assert h.sbrk + Align(size) <= VM_END;
    if rewrite && h.free != [] {
      BoundWellFormed(h.free, 0, Region(h.sbrk + Align(size), VM_END));
    }
  }

  /** Owners after a growing allocation, in terms of owners before. */
  lemma AtBreakOwners(h: Heap, rgid: nat, size: nat, rewrite: bool, x: int)
    requires rgid < |h.sym| && size > 0 && h.sbrk + size <= VM_END && WellFormed(h.free) && BreakOk(h)
    ensures var g := AllocAtBreak(h, rgid, size, rewrite);
            Owners(g, x) + Count(h.free, x) ==
            Owners(h, x) + Holds(Region(h.sbrk, g.sbrk), x) + Count(GrownFree(h, size, rewrite), x)
  {
    AlignFacts(size);
    AtBreakParts(h, rgid, size, rewrite);
    GrownFreeWellFormed(h, size, rewrite);
    EnlistedCount(GrownFree(h, size, rewrite), Remainder(h, size), x);
    CountUpdate(h.sym, rgid, Region(h.sbrk, h.sbrk + size), x);
    CountAppend(h.lost, [h.sym[rgid]], x);
  }

  lemma GrownFreeCount(h: Heap, size: nat, x: int)
    requires h.free != []
    ensures Count(GrownFree(h, size, true), x) + Holds(h.free[0], x) ==
            Count(h.free, x) + Holds(Region(h.sbrk + Align(size), VM_END), x)
  {
    CountUpdate(h.free, 0, Region(h.sbrk + Align(size), VM_END), x);
  }

  lemma HarmlessList(h: Heap, size: nat, rewrite: bool)
    requires Sound(h) && Grows(h, size, true) && Harmless(h, size, true, rewrite)
    ensures Ordered(GrownFree(h, size, rewrite)) && InArea(GrownFree(h, size, rewrite))
    ensures forall x :: Count(GrownFree(h, size, rewrite), x) == Count(h.free, x)
  {
    var f := GrownFree(h, size, rewrite);
    if rewrite && h.free != [] {
      assert forall r <- f :: r in h.free || r == Region(VM_END, VM_END);
      assert forall i :: 0 <= i < |f| ==> f[i] in f && Empty(f[i]);
      forall x
        ensures Count(f, x) == Count(h.free, x)
      {
        AllEmptyCount(f, x);
        AllEmptyCount(h.free, x);
      }
    }
  }

  lemma HarmlessGrowthOrdered(h: Heap, rgid: nat, size: nat, rewrite: bool)
    requires Sound(h) && rgid < SYMBOLS && Grows(h, size, true) && Harmless(h, size, true, rewrite)
    ensures Ordered(AllocAtBreak(h, rgid, size, rewrite).free)
  {
    var f, rest := GrownFree(h, size, rewrite), Remainder(h, size);
    HarmlessList(h, size, rewrite);
    AtBreakParts(h, rgid, size, rewrite);
    forall x
      ensures Count(f, x) + Holds(rest, x) <= 1
    {
      assert Owners(h, x) == if 0 <= x < h.sbrk then 1 else 0;
    }
    if !Empty(rest) {
      ApartFromCount(f, rest);
    }
    EnlistedOrdered(f, rest);
  }

  lemma HarmlessGrowthSound(h: Heap, rgid: nat, size: nat, rewrite: bool)
    requires Sound(h) && rgid < SYMBOLS && Grows(h, size, true) && Harmless(h, size, true, rewrite)
    ensures Sound(AllocAtBreak(h, rgid, size, rewrite))
  {
    var g := AllocAtBreak(h, rgid, size, rewrite);
    AtBreakParts(h, rgid, size, rewrite);
    AllocBreak(h, rgid, size, true, rewrite);
    HarmlessGrowthOrdered(h, rgid, size, rewrite);
    HarmlessList(h, size, rewrite);
    AlignFacts(size);
    EnlistedInArea(GrownFree(h, size, rewrite), Remainder(h, size));
    BoundWellFormed(h.sym, rgid, Region(h.sbrk, h.sbrk + size));
    forall x
      ensures Owners(g, x) == if 0 <= x < g.sbrk then 1 else 0
    {
      AtBreakOwners(h, rgid, size, rewrite, x);
      assert Owners(h, x) == if 0 <= x < h.sbrk then 1 else 0;
    }
  }

  lemma {:induction false} CoalescedHead(l: seq<Region>)
    requires WellFormed(l) && l != []
    ensures Coalesced(l) != [] && Coalesced(l)[0].start == l[0].start && Coalesced(l)[0].end >= l[0].end
    decreases |l|
  {
    if |l| >= 2 && l[0].end == l[1].start {
      assert l[0] in l && l[1] in l;
      assert forall r <- MergedHead(l) :: r == MergedHead(l)[0] || r in l;
      CoalescedHead(MergedHead(l));
    }
  }

  lemma {:induction false} CountFrom(l: seq<Region>, b: int, x: int)
    requires From(l, b) && x < b
    ensures Count(l, x) == 0
  {
    if l == [] {
    } else {
      assert l[0] in l && forall r <- l[1..] :: r in l;
      CountFrom(l[1..], b, x);
    }
  }

  // Once the head reaches vm_end, an ordered list has no byte below the head.
  lemma HeadAtEnd(l: seq<Region>, x: int)
    requires Ordered(l) && l != [] && l[0].end >= VM_END && x < VM_END && x < l[0].start
    ensures Count(l, x) == 0
  {
    forall r <- l[1..] | !Empty(r)
      ensures VM_END <= r.start
    {
      var j :| 0 <= j < |l[1..]| && l[1..][j] == r;
      assert l[j + 1] == r;
    }
    CountFrom(l[1..], VM_END, x);
  }

  lemma HarmfulGrowthUnsound(h: Heap, rgid: nat, size: nat)
    requires Sound(h) && rgid < SYMBOLS && Grows(h, size, true) && !Harmless(h, size, true, true)
    ensures !Sound(AllocAtBreak(h, rgid, size, true))
  {
    var g, brk := AllocAtBreak(h, rgid, size, true), h.sbrk + Align(size);
    AlignFacts(size);
    AtBreakParts(h, rgid, size, true);
    if Sound(g) {
      forall x
        ensures Holds(h.free[0], x) == Holds(Region(brk, VM_END), x)
      {
        AtBreakOwners(h, rgid, size, true, x);
        GrownFreeCount(h, size, x);
        assert Owners(h, x) == if 0 <= x < h.sbrk then 1 else 0;
        assert Owners(g, x) == if 0 <= x < brk then 1 else 0;
      }
      HeadEmptyAtEnd(h, brk);
      var k :| 0 <= k < |h.free| && !Empty(h.free[k]);
      LaterNodeLost(h, rgid, size, k);
    }
  }

  lemma HeadEmptyAtEnd(h: Heap, brk: nat)
    requires Tiled(h) && h.free != [] && h.sbrk < brk <= VM_END
    requires forall x :: Holds(h.free[0], x) == Holds(Region(brk, VM_END), x)
    ensures Empty(h.free[0]) && brk == VM_END
  {
    var x := h.free[0].start;
    CountSplit(h.free, 0, x);
    assert Owners(h, x) == if 0 <= x < h.sbrk then 1 else 0;
    assert Holds(h.free[0], x) == Holds(Region(brk, VM_END), x);
    assert Holds(h.free[0], brk) == Holds(Region(brk, VM_END), brk);
  }

  // A free node behind the rewritten head cannot be in an ordered list any more.
  lemma LaterNodeLost(h: Heap, rgid: nat, size: nat, k: nat)
    requires Sound(h) && rgid < SYMBOLS && Grows(h, size, true)
    requires h.sbrk + Align(size) == VM_END && 0 < k < |h.free| && !Empty(h.free[k])
    ensures !Ordered(AllocAtBreak(h, rgid, size, true).free)
  {
    var f, rest := GrownFree(h, size, true), Remainder(h, size);
    AlignFacts(size);
    AtBreakParts(h, rgid, size, true);
    GrownFreeWellFormed(h, size, true);
    CountSplit(h.free, k, h.free[k].start);
    assert Owners(h, h.free[k].start) == if 0 <= h.free[k].start < h.sbrk then 1 else 0;
    hide IntOf, Sound, Align, Owners;
    StrandedNode(f, rest, k);
  }

  // A node below a list head that reaches up to vm_end.
  lemma StrandedNode(f: seq<Region>, rest: Region, k: nat)
    requires WellFormed(f) && 0 < k < |f| && !Empty(f[k]) && f[0] == Region(VM_END, VM_END)
    requires f[k].start < rest.start <= rest.end == VM_END
    ensures !Ordered(Enlisted(f, rest))
  {
    var x := f[k].start;
    EnlistedCount(f, rest, x);
    CountSplit(f, k, x);
    if !Empty(rest) {
      assert Position(f, rest) == 0;
      assert Inserted(f, rest) == [rest] + f;
      assert forall r <- [rest] + f :: r == rest || r in f;
      CoalescedHead([rest] + f);
    }
    if Ordered(Enlisted(f, rest)) {
      HeadAtEnd(Enlisted(f, rest), x);
    }
  }

  // An allocation of any size keeps a sound heap sound exactly when it is harmless.
  lemma AllocSoundExactly(h: Heap, rgid: nat, size: nat, listed: bool, rewrite: bool)
    requires Sound(h) && rgid < SYMBOLS && size < ADDRS
    ensures Sound(Alloc(h, rgid, size, listed, rewrite).0) <==> Harmless(h, size, listed, rewrite)
  {
    hide Alloc, AllocAtBreak, Sound, BreakOk, IntOf, Wrap, Align, FitIndex;
    if FitIndex(h.free, IntOf(size)) == |h.free| {
      NoFitSoundExactly(h, rgid, size, listed, rewrite);
    } else if size <= MAX_INT {
      AllocFitSound(h, rgid, size, listed, rewrite);
    } else {
      TruncatedUnsound(h, rgid, size, listed, rewrite);
    }
  }

  lemma NoFitSoundExactly(h: Heap, rgid: nat, size: nat, listed: bool, rewrite: bool)
    requires Sound(h) && rgid < SYMBOLS && size < ADDRS && FitIndex(h.free, IntOf(size)) == |h.free|
    ensures Sound(Alloc(h, rgid, size, listed, rewrite).0) <==> Harmless(h, size, listed, rewrite)
  {
    NoFit(h, rgid, size, listed, rewrite);
    hide Alloc, AllocAtBreak, Sound, IntOf, Wrap, Align, FitIndex;
    if Wraps(h, size, listed) {
      WrappedUnsound(h, rgid, size, rewrite);
    } else if Grows(h, size, listed) {
      GrowsSoundExactly(h, rgid, size, rewrite);
    } else if h.sbrk + size <= VM_END && listed {
      ZeroAtBreakSound(h, rgid, rewrite);
    }
  }

  lemma GrowsSoundExactly(h: Heap, rgid: nat, size: nat, rewrite: bool)
    requires Sound(h) && rgid < SYMBOLS && Grows(h, size, true)
    ensures Sound(AllocAtBreak(h, rgid, size, rewrite)) <==> Harmless(h, size, true, rewrite)
  {
    hide AllocAtBreak, Sound, Align, Wrap, IntOf;
    if Harmless(h, size, true, rewrite) {
      HarmlessGrowthSound(h, rgid, size, rewrite);
    } else {
      HarmfulGrowthUnsound(h, rgid, size);
    }
  }

  // A zero-size request that finds no node binds an empty region and moves nothing.
  lemma ZeroAtBreak(h: Heap, rgid: nat, rewrite: bool)
    requires BreakOk(h) && rgid < |h.sym|
    ensures AllocAtBreak(h, rgid, 0, rewrite) == Bind(h, rgid, Region(h.sbrk, h.sbrk))
  {
    AlignFacts(0);
    hide Align, Wrap, IntOf, Enlisted;
  }

  lemma ZeroAtBreakSound(h: Heap, rgid: nat, rewrite: bool)
    requires Sound(h) && rgid < SYMBOLS
    ensures Sound(AllocAtBreak(h, rgid, 0, rewrite))
  {
    ZeroAtBreak(h, rgid, rewrite);
    var r := Region(h.sbrk, h.sbrk);
    var g := Bind(h, rgid, r);
    hide AllocAtBreak, Ordered, InArea;
    BoundWellFormed(h.sym, rgid, r);
    forall x
      ensures Owners(g, x) == Owners(h, x)
    {
      BindOwners(h, rgid, r, x);
    }
    hide Owners;
  }

  lemma ReleaseSound(h: Heap, rgid: int)
    requires Sound(h) && rgid != SYMBOLS
    ensures Sound(Release(h, rgid).0)
  {
    if Release(h, rgid).1 {
      var g, r := Release(h, rgid).0, h.sym[rgid];
      assert g == h.(sym := h.sym[rgid := NO_REGION], free := Enlisted(h.free, r));
      hide Release;
      BoundWellFormed(h.sym, rgid, NO_REGION);
      FreedList(h, rgid);
      hide Ordered, InArea, Enlisted;
      forall x
        ensures Owners(g, x) == if 0 <= x < g.sbrk then 1 else 0
      {
        ReleasedOwners(h, rgid, x);
        assert Owners(h, x) == if 0 <= x < h.sbrk then 1 else 0;
      }
    }
  }

  lemma ReleasedOwners(h: Heap, rgid: nat, x: int)
    requires rgid < |h.sym| && WellFormed(h.free)
    ensures Owners(h.(sym := h.sym[rgid := NO_REGION], free := Enlisted(h.free, h.sym[rgid])), x) == Owners(h, x)
    ensures Count(h.free, x) + Holds(h.sym[rgid], x) <= Owners(h, x)
  {
    CountSplit(h.sym, rgid, x);
    CountUpdate(h.sym, rgid, NO_REGION, x);
    EnlistedCount(h.free, h.sym[rgid], x);
    hide Enlisted;
  }

  // A live region may be enlisted: it lies in the area and apart from the free nodes.
  lemma FreedList(h: Heap, rgid: nat)
    requires Sound(h) && rgid < |h.sym|
    ensures Ordered(Enlisted(h.free, h.sym[rgid])) && InArea(Enlisted(h.free, h.sym[rgid]))
  {
    var r := h.sym[rgid];
    hide Enlisted;
    if !Empty(r) {
      forall x
        ensures Count(h.free, x) + Holds(r, x) <= 1 && (Holds(r, x) == 1 ==> x < h.sbrk)
      {
        ReleasedOwners(h, rgid, x);
        assert Owners(h, x) == if 0 <= x < h.sbrk then 1 else 0;
      }
      assert Holds(r, r.end - 1) == 1;
      ApartFromCount(h.free, r);
    }
    EnlistedOrdered(h.free, r);
    EnlistedInArea(h.free, r);
  }

  // ---------- whole runs ----------

  datatype Op = AllocOp(rgid: nat, size: nat, listed: bool) | FreeOp(rgid: nat)

  /** An index of the table, and a size that is an addr_t. */
  predicate Callable(op: Op) {
    op.rgid < SYMBOLS && (op.AllocOp? ==> op.size < ADDRS)
  }

  predicate AllCallable(ops: seq<Op>) { forall i :: 0 <= i < |ops| ==> Callable(ops[i]) }

  function Step(h: Heap, op: Op, rewrite: bool): (g: Heap)
    requires |h.sym| == SYMBOLS && op.rgid < SYMBOLS
    ensures |g.sym| == SYMBOLS
  {
    match op
    case AllocOp(rgid, size, listed) => Alloc(h, rgid, size, listed, rewrite).0
    case FreeOp(rgid) => Release(h, rgid).0
  }

  function Run(ops: seq<Op>, rewrite: bool): (h: Heap)
    requires AllCallable(ops)
    ensures |h.sym| == SYMBOLS
  {
    if ops == [] then NewHeap() else Step(Run(ops[..|ops| - 1], rewrite), ops[|ops| - 1], rewrite)
  }

  predicate HarmlessOp(h: Heap, op: Op, rewrite: bool) {
    op.AllocOp? ==> Harmless(h, op.size, op.listed, rewrite)
  }

  ghost predicate SoundThroughout(ops: seq<Op>, rewrite: bool)
    requires AllCallable(ops)
  {
    Sound(Run(ops, rewrite)) && (ops != [] ==> SoundThroughout(ops[..|ops| - 1], rewrite))
  }

  predicate HarmlessThroughout(ops: seq<Op>, rewrite: bool)
    requires AllCallable(ops)
  {
    ops != [] ==>
      HarmlessThroughout(ops[..|ops| - 1], rewrite) && HarmlessOp(Run(ops[..|ops| - 1], rewrite), ops[|ops| - 1], rewrite)
  }

  // A run stays sound at every point exactly when every allocation in it is harmless.
  lemma {:induction false} RunSoundExactly(ops: seq<Op>, rewrite: bool)
    requires AllCallable(ops)
    ensures SoundThroughout(ops, rewrite) <==> HarmlessThroughout(ops, rewrite)
  {
    if ops == [] {
      NewHeapSound();
    } else {
      var shorter := ops[..|ops| - 1];
      RunSoundExactly(shorter, rewrite);
      if SoundThroughout(shorter, rewrite) {
        StepSoundExactly(Run(shorter, rewrite), ops[|ops| - 1], rewrite);
      }
    }
  }

  lemma StepSoundExactly(h: Heap, op: Op, rewrite: bool)
    requires Sound(h) && Callable(op)
    ensures Sound(Step(h, op, rewrite)) <==> HarmlessOp(h, op, rewrite)
  {
    match op
    case AllocOp(rgid, size, listed) => AllocSoundExactly(h, rgid, size, listed, rewrite);
    case FreeOp(rgid) => ReleaseSound(h, rgid);
  }

  /** All sizes fit an int. */
  predicate IntSizes(ops: seq<Op>) { forall i :: 0 <= i < |ops| ==> (ops[i].AllocOp? ==> ops[i].size <= MAX_INT) }

  // Without the rewriting every run of int sizes is sound.
  lemma {:induction false} DesignSound(ops: seq<Op>)
    requires AllCallable(ops) && IntSizes(ops)
    ensures Sound(Run(ops, false))
  {
    if ops == [] {
      NewHeapSound();
    } else {
      DesignSound(ops[..|ops| - 1]);
      StepSoundExactly(Run(ops[..|ops| - 1], false), ops[|ops| - 1], false);
    }
  }

  /** Every allocation of the run goes to a table entry that holds no region at that moment. */
  predicate BindsFresh(ops: seq<Op>)
    requires AllCallable(ops)
  {
    ops == [] ||
    var shorter, op := ops[..|ops| - 1], ops[|ops| - 1];
    BindsFresh(shorter) && (op.AllocOp? ==> Empty(Run(shorter, false).sym[op.rgid]))
  }

  lemma StepLosesNothing(h: Heap, op: Op, x: int)
    requires |h.sym| == SYMBOLS && op.rgid < SYMBOLS && (op.AllocOp? ==> Empty(h.sym[op.rgid]))
    ensures Count(Step(h, op, false).lost, x) == Count(h.lost, x)
  {
    hide IntOf, Align, FitIndex, Taken, Enlisted;
    CountAppend(h.lost, [h.sym[op.rgid]], x);
  }

  lemma {:induction false} LostEmpty(ops: seq<Op>, x: int)
    requires AllCallable(ops) && BindsFresh(ops)
    ensures Count(Run(ops, false).lost, x) == 0
  {
    if ops == [] {
    } else {
      LostEmpty(ops[..|ops| - 1], x);
      StepLosesNothing(Run(ops[..|ops| - 1], false), ops[|ops| - 1], x);
    }
  }

  // Then nothing is lost: live and free regions alone tile [0, sbrk).
  lemma NothingLost(ops: seq<Op>, x: int)
    requires AllCallable(ops) && IntSizes(ops) && BindsFresh(ops)
    ensures Count(Run(ops, false).sym, x) + Count(Run(ops, false).free, x) == if 0 <= x < Run(ops, false).sbrk then 1 else 0
  {
    LostEmpty(ops, x);
    DesignSound(ops);
    hide BindsFresh, Run;
    assert Owners(Run(ops, false), x) == if 0 <= x < Run(ops, false).sbrk then 1 else 0;
  }

  // As written, four allocations make two live regions share byte 13000; step by step:
  lemma EnlistTouching(r: Region, n: Region)
    requires !Empty(r) && r.end == n.start
    ensures Enlisted([n], r) == [Region(r.start, n.end)]
  {
    assert Position([n], r) == 0;
    assert Inserted([n], r) == [r] + [n];
    assert [r, n][0] == r && [r, n][1] == n && [r, n][2..] == [];
    assert [r] + [n] == [r, n];
    assert MergedHead([r, n]) == [Region(r.start, n.end)];
    assert Coalesced(MergedHead([r, n])) == MergedHead([r, n]);
  }

  lemma FirstGrowth(h: Heap, rewrite: bool)
    requires |h.sym| == SYMBOLS && h.free == [] && h.sbrk == 0
    ensures var g := Step(h, AllocOp(0, 300, true), rewrite);
            g.free == [Region(300, 4096)] && g.sbrk == 4096
  {
    AtBreakParts(h, 0, 300, rewrite);
    assert Inserted([], Region(300, 4096)) == [Region(300, 4096)];
  }

  lemma SecondGrowth(h: Heap)
    requires |h.sym| == SYMBOLS && h.free == [Region(300, 4096)] && h.sbrk == 4096
    ensures var g := Step(h, AllocOp(1, 5000, true), true);
            g.free == [Region(9096, VM_END)] && g.sbrk == 12288
  {
    assert FitIndex(h.free, 5000) == 1;
    AtBreakParts(h, 1, 5000, true);
    assert GrownFree(h, 5000, true) == [Region(12288, VM_END)];
    EnlistTouching(Region(9096, 12288), Region(12288, VM_END));
  }

  lemma FitAboveBreak(h: Heap)
    requires |h.sym| == SYMBOLS && h.free == [Region(9096, VM_END)] && h.sbrk == 12288
    ensures var g := Step(h, AllocOp(2, 10000, true), true);
            g.free == [Region(19096, VM_END)] && g.sbrk == 12288 && g.sym == h.sym[2 := Region(9096, 19096)]
  {
    assert FitIndex(h.free, 10000) == 0;
  }

  lemma ThirdGrowth(h: Heap)
    requires |h.sym| == SYMBOLS && h.free == [Region(19096, VM_END)] && h.sbrk == 12288
    ensures Step(h, AllocOp(3, 2080000, true), true).sym == h.sym[3 := Region(12288, 2092288)]
  {
    assert FitIndex(h.free, 2080000) == 1;
    AtBreakParts(h, 3, 2080000, true);
  }

  // A size of 2^32 + 100 is searched for as 100, and the region handed out leaves the vm area.
  lemma TruncationOverruns()
    ensures var ops := [] + [AllocOp(0, 300, true)] + [AllocOp(1, 0x1_0000_0064, true)];
            AllCallable(ops) && Run(ops, false).sym[1] == Region(300, 300 + 0x1_0000_0064) && Run(ops, false).sbrk == 4096
  {
    var a, b := AllocOp(0, 300, true), AllocOp(1, 0x1_0000_0064, true);
    var s0: seq<Op> := [];
    assert Callable(a) && Callable(b) && AllCallable(s0);
    assert Run(s0, false) == NewHeap();
    hide Run, AllCallable, Callable;
    RunAppend(s0, a, false);
    RunAppend(s0 + [a], b, false);
    hide *;
    NewHeapParts();
    FirstGrowth(NewHeap(), false);
    TruncatedFit(Step(NewHeap(), a, false));
  }

  lemma NewHeapParts()
    ensures |NewHeap().sym| == SYMBOLS && NewHeap().free == [] && NewHeap().sbrk == 0
  {}

  lemma TruncatedFit(h: Heap)
    requires |h.sym| == SYMBOLS && h.free == [Region(300, 4096)]
    ensures var g := Step(h, AllocOp(1, 0x1_0000_0064, true), false);
            g.sbrk == h.sbrk && g.sym[1] == Region(300, 300 + 0x1_0000_0064)
  {
    assert IntOf(0x1_0000_0064) == 100;
    assert FitIndex(h.free, 100) == 0;
  }

  // A size of 2^64 - 5000 wraps around: the break moves down into region 0, and 904 of its bytes
  // are free.
  lemma WrappingFreesLiveBytes(rewrite: bool)
    ensures var ops := [] + [AllocOp(0, 8192, true)] + [AllocOp(1, 0xffff_ffff_ffff_ec78, true)];
            && AllCallable(ops)
            && var h := Run(ops, rewrite);
            h.sym[0] == Region(0, 8192) && h.free == [Region(3192, 4096)] && h.sbrk == 4096
  {
    var a, b := AllocOp(0, 8192, true), AllocOp(1, 0xffff_ffff_ffff_ec78, true);
    var s0: seq<Op> := [];
    assert Callable(a) && Callable(b) && AllCallable(s0);
    assert Run(s0, rewrite) == NewHeap();
    hide Run, AllCallable, Callable;
    RunAppend(s0, a, rewrite);
    RunAppend(s0 + [a], b, rewrite);
    hide *;
    NewHeapParts();
    TwoPages(NewHeap(), rewrite);
    WrappedStep(Step(NewHeap(), a, rewrite), rewrite);
  }

  lemma TwoPages(h: Heap, rewrite: bool)
    requires |h.sym| == SYMBOLS && h.free == [] && h.sbrk == 0
    ensures var g := Step(h, AllocOp(0, 8192, true), rewrite);
            g.sym[0] == Region(0, 8192) && g.free == [] && g.sbrk == 8192
  {
    AtBreakParts(h, 0, 8192, rewrite);
    NothingEnlisted([], Remainder(h, 8192));
  }

  lemma WrappedStep(h: Heap, rewrite: bool)
    requires |h.sym| == SYMBOLS && h.free == [] && h.sbrk == 8192
    ensures var g := Step(h, AllocOp(1, 0xffff_ffff_ffff_ec78, true), rewrite);
            g.sym == h.sym[1 := Region(8192, 3192)] && g.free == [Region(3192, 4096)] && g.sbrk == 4096
  {
    var size := 0xffff_ffff_ffff_ec78;
    assert size == ADDRS - 5000 && Align(size) == ADDRS - 4096;
    assert Inserted([], Region(3192, 4096)) == [Region(3192, 4096)];
  }

  lemma RunAppend(ops: seq<Op>, op: Op, rewrite: bool)
    requires AllCallable(ops) && Callable(op)
    ensures AllCallable(ops + [op]) && Run(ops + [op], rewrite) == Step(Run(ops, rewrite), op, rewrite)
  {
    assert (ops + [op])[..|ops|] == ops;
  }

  lemma AfterTwo()
    ensures var ops := [] + [AllocOp(0, 300, true)] + [AllocOp(1, 5000, true)];
            AllCallable(ops) && Run(ops, true).free == [Region(9096, VM_END)] && Run(ops, true).sbrk == 12288
  {
    var a, b := AllocOp(0, 300, true), AllocOp(1, 5000, true);
    var s0: seq<Op> := [];
    assert Run(s0, true).free == [] && Run(s0, true).sbrk == 0;
    assert Callable(a) && Callable(b) && AllCallable(s0);
    hide *;
    RunAppend(s0, a, true);
    FirstGrowth(Run(s0, true), true);
    RunAppend(s0 + [a], b, true);
    SecondGrowth(Run(s0 + [a], true));
  }

  lemma RewritingOverlaps()
    ensures var ops := [] + [AllocOp(0, 300, true)] + [AllocOp(1, 5000, true)] + [AllocOp(2, 10000, true)] + [AllocOp(3, 2080000, true)];
            AllCallable(ops) && Run(ops, true).sym[2] == Region(9096, 19096) && Run(ops, true).sym[3] == Region(12288, 2092288)
  {
    var c, d := AllocOp(2, 10000, true), AllocOp(3, 2080000, true);
    var s2 := [] + [AllocOp(0, 300, true)] + [AllocOp(1, 5000, true)];
    assert Callable(c) && Callable(d);
    hide *;
    AfterTwo();
    RunAppend(s2, c, true);
    FitAboveBreak(Run(s2, true));
    RunAppend(s2 + [c], d, true);
    ThirdGrowth(Run(s2 + [c], true));
  }
}
