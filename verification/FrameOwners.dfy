/**
 * All processes' address spaces over one RAM device: at any moment every frame is in exactly one
 * place, so no two present entries decode to the same frame.
 */
module FrameOwners {
  import opened Words
  import opened Pte
  import opened PageTable
  import opened Paging
  import opened Memory
  import opened UserHeap

  /** What an `mm_struct` holds. */
  datatype Space = Space(heap: Heap, tables: Tables, fifo: seq<bv64>)

  /**
   * `lost`: frames that a failed `alloc_pages_range` popped and did not give back, and frames of
   * pages that were mapped again.
   */
  datatype Sys = Sys(spaces: seq<Space>, free: seq<bv64>, lost: seq<bv64>)

  const NO_SPACES: seq<Space> := []

  function NewSpace(): Space { Space(NewHeap(), NEW_TABLES, []) }

  /** RAM of n frames, before any process is loaded. */
  function Boot(n: nat): Sys { Sys(NO_SPACES, Frames(n), []) }

  /** What `MEMPHY_format` can cut and thirteen bits can number: from two frames to 2^21 bytes. */
  predicate RamOk(n: nat) { 2 <= n <= 0x20_0000 / FRAME_BYTES }

  datatype SysOp = LoadOp | AllocIn(p: nat, rgid: nat, size: nat, listed: bool) | FreeIn(p: nat, rgid: nat)

  ghost predicate SpaceOk(s: Space) {
    |s.heap.sym| == SYMBOLS && BreakOk(s.heap) && Wf(s.tables.tree)
  }

  ghost predicate SpacesOk(spaces: seq<Space>) { forall i :: 0 <= i < |spaces| ==> SpaceOk(spaces[i]) }

  /** How many pages lie below the break. */
  function Pages(s: Space): nat { s.heap.sbrk / PAGE }

  function PageEntry(s: Space, i: nat): bv64 { Lookup(s.tables.tree, PagePath(i)) }

  predicate Callable(sys: Sys, op: SysOp) {
    op.LoadOp? || (op.p < |sys.spaces| && op.rgid < SYMBOLS && (op.AllocIn? ==> op.size < ADDRS))
  }

  /** The space after an allocation, when the frames are `frames` (newest first), if it got any. */
  function Grown(s: Space, h: Heap, frames: seq<bv64>): Space
    requires Wf(s.tables.tree)
  {
    Space(h, Mapped(s.tables, Pages(s), frames), Reversed(PageRange(Pages(s), |frames|)) + s.fifo)
  }

  /** The frames of the present pages among base, ..., base + n - 1. */
  function Overwritten(t: Tree, base: nat, n: nat): seq<bv64> {
    if n == 0 then []
    else
      var e := Lookup(t, PagePath(base + n - 1));
      Overwritten(t, base, n - 1) + (if Present(e) then [Fpn(e)] else [])
  }

  /** The pages that the break moves over. When it moves down, nothing is mapped or unmapped. */
  function Needed(s: Space, h: Heap): nat { if h.sbrk <= s.heap.sbrk then 0 else (h.sbrk - s.heap.sbrk) / PAGE }

  /** `alloc_pages_range` and `vmap_page_range` for the pages the break moved over. */
  function Supply(sys: Sys, p: nat, h: Heap): Sys
    requires p < |sys.spaces| && Wf(sys.spaces[p].tables.tree)
  {
    var s := sys.spaces[p];
    var n := Needed(s, h);
    if n <= |sys.free| then
      Sys(sys.spaces[p := Grown(s, h, Reversed(sys.free[..n]))], sys.free[n..],
          sys.lost + Overwritten(s.tables.tree, Pages(s), n))
    else Sys(sys.spaces[p := s.(heap := h)], [], sys.lost + sys.free)
  }

  function HeapAfter(sys: Sys, op: SysOp, rewrite: bool): Heap
    requires Callable(sys, op) && !op.LoadOp? && |sys.spaces[op.p].heap.sym| == SYMBOLS
  {
    if op.AllocIn? then Alloc(sys.spaces[op.p].heap, op.rgid, op.size, op.listed, rewrite).0
    else Release(sys.spaces[op.p].heap, op.rgid).0
  }

  function After(sys: Sys, op: SysOp, rewrite: bool): Sys
    requires Callable(sys, op) && SpacesOk(sys.spaces)
  {
    if op.LoadOp? then sys.(spaces := sys.spaces + [NewSpace()])
    else
      assert SpaceOk(sys.spaces[op.p]);
      Supply(sys, op.p, HeapAfter(sys, op, rewrite))
  }

  // ---------- one entry ----------

  predicate MapsTo(e: bv64, f: bv64) { Present(e) && Fpn(e) == f }

  lemma MapsToSetFpn(e: bv64, f: bv64, g: bv64)
    requires f < 8192
    ensures MapsTo(SetFpn(e, f), g) <==> g == f
    ensures Present(SetFpn(e, f))
  {
    SetFpnDecodes(e, f);
    FpnRoundTrip(e, f);
  }

  // ---------- counting ----------

  /** 1 if page j maps to frame f. */
  function Hit(t: Tree, f: bv64, j: nat): nat { if MapsTo(Lookup(t, PagePath(j)), f) then 1 else 0 }

  /** How many of the first n pages of a tree map to frame f. */
  function PagesTo(t: Tree, f: bv64, n: nat): nat {
    if n == 0 then 0 else PagesTo(t, f, n - 1) + Hit(t, f, n - 1)
  }

  function SpacesTo(spaces: seq<Space>, f: bv64): nat {
    if spaces == [] then 0 else PagesTo(spaces[0].tables.tree, f, PAGES) + SpacesTo(spaces[1..], f)
  }

  /** In how many places frame f is: present entries of all processes, the free list, the lost frames. */
  function Places(sys: Sys, f: bv64): nat {
    SpacesTo(sys.spaces, f) + Occurs(sys.free, f) + Occurs(sys.lost, f)
  }

  lemma {:induction false} SpacesUpdate(spaces: seq<Space>, p: nat, s: Space, f: bv64)
    requires p < |spaces|
    ensures SpacesTo(spaces[p := s], f) + PagesTo(spaces[p].tables.tree, f, PAGES) ==
            SpacesTo(spaces, f) + PagesTo(s.tables.tree, f, PAGES)
  {
    hide PagesTo;
    if p == 0 {
      assert spaces[p := s][1..] == spaces[1..];
    } else {
      assert spaces[p := s][1..] == spaces[1..][p - 1 := s];
      SpacesUpdate(spaces[1..], p - 1, s, f);
    }
  }

  lemma {:induction false} SpacesAppend(spaces: seq<Space>, s: Space, f: bv64)
    ensures SpacesTo(spaces + [s], f) == SpacesTo(spaces, f) + PagesTo(s.tables.tree, f, PAGES)
  {
    if spaces == [] {
      assert [] + [s] == [s] && [s][1..] == [];
    } else {
      assert (spaces + [s])[0] == spaces[0] && (spaces + [s])[1..] == spaces[1..] + [s];
      SpacesAppend(spaces[1..], s, f);
    }
  }

  function Clamp(n: nat, base: nat, k: nat): nat {
    if n <= base then 0 else if n - base >= k then k else n - base
  }

  // Mapping a range adds the frames of the list, each once, and removes what the range held.
  lemma {:induction false} MappedCount(ts: Tables, base: nat, frames: seq<bv64>, f: bv64, n: nat)
    requires Wf(ts.tree) && base + |frames| <= PAGES && n <= PAGES
    requires forall i :: 0 <= i < |frames| ==> frames[i] < 8192
    ensures var k := Clamp(n, base, |frames|);
            PagesTo(Mapped(ts, base, frames).tree, f, n) + PagesTo(ts.tree, f, base + k) ==
            PagesTo(ts.tree, f, n) + PagesTo(ts.tree, f, base) + Occurs(frames[..k], f)
  {
    hide Hit, Mapped, Wf;
    if n == 0 {
    } else {
      MappedCount(ts, base, frames, f, n - 1);
      MappedHit(ts, base, frames, f, n - 1);
      if base < n <= base + |frames| {
        TakeOneMore(frames, n - 1 - base, f);
      }
    }
  }

  lemma MappedHit(ts: Tables, base: nat, frames: seq<bv64>, f: bv64, j: nat)
    requires Wf(ts.tree) && base + |frames| <= PAGES && j < PAGES
    requires forall i :: 0 <= i < |frames| ==> frames[i] < 8192
    ensures Hit(Mapped(ts, base, frames).tree, f, j) ==
            if base <= j < base + |frames| then (if f == frames[j - base] then 1 else 0) else Hit(ts.tree, f, j)
  {
    hide Lookup, PagePath, SetFpn, Mapped, Wf, MapsTo;
    MappedPages(ts, base, frames, j);
    if base <= j < base + |frames| {
      MapsToSetFpn(Lookup(ts.tree, PagePath(j)), frames[j - base], f);
    }
  }

  lemma TakeOneMore(frames: seq<bv64>, i: nat, f: bv64)
    requires i < |frames|
    ensures Occurs(frames[..i + 1], f) == Occurs(frames[..i], f) + (if f == frames[i] then 1 else 0)
  {
    assert frames[..i + 1] == frames[..i] + [frames[i]];
    OccursAppend(frames[..i], [frames[i]], f);
    assert [frames[i]][1..] == [];
  }

  lemma {:induction false} OverwrittenCount(t: Tree, base: nat, n: nat, f: bv64)
    ensures PagesTo(t, f, base + n) == PagesTo(t, f, base) + Occurs(Overwritten(t, base, n), f)
  {
    hide Lookup, PagePath, Present, Fpn;
    if n == 0 {
    } else {
      OverwrittenCount(t, base, n - 1, f);
      var e := Lookup(t, PagePath(base + n - 1));
      OccursAppend(Overwritten(t, base, n - 1), if Present(e) then [Fpn(e)] else [], f);
      assert [Fpn(e)][1..] == [];
    }
  }

  // ---------- the invariant ----------

  ghost predicate Conserved(sys: Sys, all: seq<bv64>) {
    && SpacesOk(sys.spaces)
    && (forall i :: 0 <= i < |sys.free| ==> sys.free[i] < 8192)
    && (forall f :: Places(sys, f) == Occurs(all, f))
  }

  lemma BootConserved(n: nat)
    requires n <= 8192
    ensures Conserved(Boot(n), Frames(n))
  {
    forall i | 0 <= i < n
      ensures Frames(n)[i] < 8192
    {
      WordBelow8192(i);
    }
  }

  // An operation moves the break by whole pages, never beyond the last page, and down only when
  // the sum of an allocation wraps around.
  lemma HeapMoves(sys: Sys, op: SysOp, rewrite: bool)
    requires Callable(sys, op) && !op.LoadOp? && SpaceOk(sys.spaces[op.p])
    ensures var s, h := sys.spaces[op.p], HeapAfter(sys, op, rewrite);
            && |h.sym| == SYMBOLS && BreakOk(h) && Pages(s) + Needed(s, h) <= PAGES
            && (if LowersBreak(sys, op) then h.sbrk / PAGE < Pages(s) && Needed(s, h) == 0
                else h.sbrk / PAGE == Pages(s) + Needed(s, h))
  {
    var s := sys.spaces[op.p];
    hide Lowers, Wf;
    if op.AllocIn? {
      AllocBreak(s.heap, op.rgid, op.size, op.listed, rewrite);
      hide Alloc;
    }
  }

  /** The step is an allocation whose sum with the break wraps around, so that the break moves down. */
  predicate LowersBreak(sys: Sys, op: SysOp)
    requires Callable(sys, op)
  {
    op.AllocIn? && Lowers(sys.spaces[op.p].heap, op.size, op.listed)
  }

  lemma EmptyTreeMapsNothing(i: nat)
    ensures Lookup(EMPTY_TREE, PagePath(i)) == 0 && !Present(0)
  {}

  lemma {:induction false} EmptyTreePages(f: bv64, n: nat)
    ensures PagesTo(EMPTY_TREE, f, n) == 0
  {
    if n == 0 {
    } else {
      EmptyTreeMapsNothing(n - 1);
      EmptyTreePages(f, n - 1);
    }
  }

  lemma NewSpacePages(f: bv64)
    ensures PagesTo(NewSpace().tables.tree, f, PAGES) == 0
  {
    EmptyTreePages(f, PAGES);
  }

  lemma NewSpaceOk()
    ensures SpaceOk(NewSpace())
  {}

  lemma GrownPresent(s: Space, h: Heap, frames: seq<bv64>, i: nat)
    requires SpaceOk(s) && Pages(s) + |frames| <= PAGES && i < PAGES
    requires forall i :: 0 <= i < |frames| ==> frames[i] < 8192
    ensures Present(PageEntry(Grown(s, h, frames), i)) <==> Present(PageEntry(s, i)) || Pages(s) <= i < Pages(s) + |frames|
    ensures i < Pages(s) ==> PageEntry(Grown(s, h, frames), i) == PageEntry(s, i)
  {
    hide PagePath, Lookup, Mapped, Present, Fpn, SetFpn, Pages;
    MappedPages(s.tables, Pages(s), frames, i);
    if Pages(s) <= i < Pages(s) + |frames| {
      MapsToSetFpn(PageEntry(s, i), frames[i - Pages(s)], 0);
    }
  }

  lemma GrownCount(s: Space, h: Heap, frames: seq<bv64>, f: bv64)
    requires SpaceOk(s) && Pages(s) + |frames| <= PAGES
    requires forall i :: 0 <= i < |frames| ==> frames[i] < 8192
    ensures PagesTo(Grown(s, h, frames).tables.tree, f, PAGES) + Occurs(Overwritten(s.tables.tree, Pages(s), |frames|), f) ==
            PagesTo(s.tables.tree, f, PAGES) + Occurs(frames, f)
  {
    hide Mapped, PagesTo, Overwritten, Pages;
    MappedCount(s.tables, Pages(s), frames, f, PAGES);
    OverwrittenCount(s.tables.tree, Pages(s), |frames|, f);
    assert Clamp(PAGES, Pages(s), |frames|) == |frames| && frames[..|frames|] == frames;
  }

  /** The supply can be made: a proper heap, and pages within the area. */
  ghost predicate Suppliable(sys: Sys, p: nat, h: Heap) {
    && SpacesOk(sys.spaces) && p < |sys.spaces| && (forall i :: 0 <= i < |sys.free| ==> sys.free[i] < 8192)
    && |h.sym| == SYMBOLS && BreakOk(h) && Pages(sys.spaces[p]) + Needed(sys.spaces[p], h) <= PAGES
  }

  lemma SupplyOk(sys: Sys, p: nat, h: Heap)
    requires Suppliable(sys, p, h)
    ensures Wf(sys.spaces[p].tables.tree) && SpaceOk(Supply(sys, p, h).spaces[p])
  {
    assert SpaceOk(sys.spaces[p]);
  }

  lemma SupplyPlaces(sys: Sys, p: nat, h: Heap, f: bv64)
    requires Suppliable(sys, p, h) && Wf(sys.spaces[p].tables.tree)
    ensures Places(Supply(sys, p, h), f) == Places(sys, f)
  {
    var s, t, n := sys.spaces[p], Supply(sys, p, h), Needed(sys.spaces[p], h);
    assert SpaceOk(s);
    SupplyCount(sys, p, h, f);
    assert t.spaces == sys.spaces[p := t.spaces[p]];
    hide SpaceOk, Suppliable, SpacesTo, PagesTo, Occurs, Supply;
    SpacesUpdate(sys.spaces, p, t.spaces[p], f);
  }

  lemma SupplyCount(sys: Sys, p: nat, h: Heap, f: bv64)
    requires Suppliable(sys, p, h) && SpaceOk(sys.spaces[p])
    ensures var s, t := sys.spaces[p], Supply(sys, p, h);
            |t.spaces| == |sys.spaces|
            && PagesTo(t.spaces[p].tables.tree, f, PAGES) + Occurs(t.free, f) + Occurs(t.lost, f) ==
               PagesTo(s.tables.tree, f, PAGES) + Occurs(sys.free, f) + Occurs(sys.lost, f)
  {
    var s, n := sys.spaces[p], Needed(sys.spaces[p], h);
    hide PagesTo, Occurs, Needed, Pages, Overwritten, Mapped;
    if n <= |sys.free| {
      var frames := Reversed(sys.free[..n]);
      GrownCount(s, h, frames, f);
      OccursReversed(sys.free[..n], f);
      assert sys.free == sys.free[..n] + sys.free[n..];
      OccursAppend(sys.free[..n], sys.free[n..], f);
      OccursAppend(sys.lost, Overwritten(s.tables.tree, Pages(s), n), f);
    } else {
      OccursAppend(sys.lost, sys.free, f);
    }
  }

  lemma SupplyFree(sys: Sys, p: nat, h: Heap)
    requires p < |sys.spaces| && Wf(sys.spaces[p].tables.tree) && forall i :: 0 <= i < |sys.free| ==> sys.free[i] < 8192
    ensures forall i :: 0 <= i < |Supply(sys, p, h).free| ==> Supply(sys, p, h).free[i] < 8192
  {
    hide Grown, Wf;
  }

  lemma SupplySpacesOk(sys: Sys, p: nat, h: Heap)
    requires Suppliable(sys, p, h) && Wf(sys.spaces[p].tables.tree)
    ensures SpacesOk(Supply(sys, p, h).spaces)
  {
    SupplyOk(sys, p, h);
    var t := Supply(sys, p, h).spaces;
    assert |t| == |sys.spaces| && forall q :: 0 <= q < |t| && q != p ==> t[q] == sys.spaces[q];
    hide SpaceOk, Supply;
  }

  lemma SupplyConserved(sys: Sys, all: seq<bv64>, p: nat, h: Heap)
    requires Conserved(sys, all) && Suppliable(sys, p, h) && Wf(sys.spaces[p].tables.tree)
    ensures Conserved(Supply(sys, p, h), all)
  {
    assert forall i :: 0 <= i < |sys.free| ==> sys.free[i] < 8192;
    SupplySpacesOk(sys, p, h);
    SupplyFree(sys, p, h);
    hide SpacesOk, Supply, Places, Suppliable, Occurs, Wf;
    forall f
      ensures Places(Supply(sys, p, h), f) == Occurs(all, f)
    {
      assert Places(sys, f) == Occurs(all, f);
      SupplyPlaces(sys, p, h, f);
    }
  }

  lemma LoadConserved(sys: Sys, all: seq<bv64>, rewrite: bool)
    requires Conserved(sys, all)
    ensures Conserved(After(sys, LoadOp, rewrite), all)
  {
    hide NewSpace, SpaceOk, PagesTo, Occurs, SpacesTo;
    NewSpaceOk();
    forall f
      ensures Places(After(sys, LoadOp, rewrite), f) == Occurs(all, f)
    {
      SpacesAppend(sys.spaces, NewSpace(), f);
      NewSpacePages(f);
      assert Places(sys, f) == Occurs(all, f);
    }
  }

  // Every step of every process keeps each frame in its one place.
  lemma AfterConserved(sys: Sys, all: seq<bv64>, op: SysOp, rewrite: bool)
    requires Conserved(sys, all) && Callable(sys, op)
    ensures Conserved(After(sys, op, rewrite), all)
  {
    if op.LoadOp? {
      LoadConserved(sys, all, rewrite);
    } else {
      assert SpaceOk(sys.spaces[op.p]);
      HeapMoves(sys, op, rewrite);
      SupplyConserved(sys, all, op.p, HeapAfter(sys, op, rewrite));
      hide Conserved, HeapAfter, Supply;
    }
  }

  // ---------- whole runs ----------

  ghost predicate CanRun(sys: Sys, ops: seq<SysOp>, rewrite: bool)
    decreases |ops|
  {
    ops != [] ==>
      Callable(sys, ops[0]) && SpacesOk(sys.spaces)
      && CanRun(After(sys, ops[0], rewrite), ops[1..], rewrite)
  }

  ghost function Run(sys: Sys, ops: seq<SysOp>, rewrite: bool): Sys
    requires CanRun(sys, ops, rewrite)
    decreases |ops|
  {
    if ops == [] then sys else Run(After(sys, ops[0], rewrite), ops[1..], rewrite)
  }

  lemma {:induction false} RunConserved(sys: Sys, all: seq<bv64>, ops: seq<SysOp>, rewrite: bool)
    requires Conserved(sys, all) && CanRun(sys, ops, rewrite)
    ensures Conserved(Run(sys, ops, rewrite), all)
    decreases |ops|
  {
    if ops == [] {
    } else {
      AfterConserved(sys, all, ops[0], rewrite);
      RunConserved(After(sys, ops[0], rewrite), all, ops[1..], rewrite);
    }
  }

  lemma {:induction false} FramesOnce(n: nat, f: bv64)
    requires n <= 8192
    ensures Occurs(Frames(n), f) <= 1
    ensures Occurs(Frames(n), f) == 1 <==> exists k :: 0 <= k < n && Word(k) == f
  {
    if n == 0 {
    } else {
      FramesOnce(n - 1, f);
      OccursAppend(Frames(n - 1), [Word(n - 1)], f);
      assert [Word(n - 1)][1..] == [];
      if k :| 0 <= k < n - 1 && Word(k) == Word(n - 1) {
        WordInjective(k, n - 1);
      }
    }
  }

  lemma {:induction false} PagesAtLeast(t: Tree, f: bv64, i: nat, n: nat)
    requires i < n && MapsTo(Lookup(t, PagePath(i)), f)
    ensures PagesTo(t, f, n) >= 1
  {
    if i < n - 1 {
      PagesAtLeast(t, f, i, n - 1);
    }
  }

  lemma {:induction false} PagesPair(t: Tree, f: bv64, i: nat, j: nat, n: nat)
    requires i < j < n && MapsTo(Lookup(t, PagePath(i)), f) && MapsTo(Lookup(t, PagePath(j)), f)
    ensures PagesTo(t, f, n) >= 2
  {
    if j < n - 1 {
      PagesPair(t, f, i, j, n - 1);
    } else {
      PagesAtLeast(t, f, i, n - 1);
    }
  }

  lemma {:induction false} SpacesAtLeast(spaces: seq<Space>, p: nat, f: bv64)
    requires p < |spaces|
    ensures SpacesTo(spaces, f) >= PagesTo(spaces[p].tables.tree, f, PAGES)
  {
    hide PagesTo;
    if p == 0 {
    } else {
      SpacesAtLeast(spaces[1..], p - 1, f);
    }
  }

  lemma SpacesPair(spaces: seq<Space>, p: nat, q: nat, f: bv64)
    requires p < |spaces| && q < |spaces| && p != q
    ensures SpacesTo(spaces, f) >= PagesTo(spaces[p].tables.tree, f, PAGES) + PagesTo(spaces[q].tables.tree, f, PAGES)
  {
    NewSpacePages(f);
    hide PagesTo, SpacesTo, NewSpace;
    SpacesUpdate(spaces, p, NewSpace(), f);
    SpacesAtLeast(spaces[p := NewSpace()], q, f);
  }

  lemma RunCons(sys: Sys, op: SysOp, rest: seq<SysOp>, rewrite: bool)
    requires Callable(sys, op) && SpacesOk(sys.spaces)
    ensures CanRun(After(sys, op, rewrite), rest, rewrite) ==>
              CanRun(sys, [op] + rest, rewrite)
              && Run(sys, [op] + rest, rewrite) == Run(After(sys, op, rewrite), rest, rewrite)
  {
    assert ([op] + rest)[0] == op && ([op] + rest)[1..] == rest;
  }

  // ---------- no run is left out ----------

  lemma {:induction false} Extend(sys: Sys, all: seq<bv64>, ops: seq<SysOp>, op: SysOp, rewrite: bool)
    requires Conserved(sys, all) && CanRun(sys, ops, rewrite) && Callable(Run(sys, ops, rewrite), op)
    ensures CanRun(sys, ops + [op], rewrite)
    decreases |ops|
  {
    if ops == [] {
      assert ([] + [op])[1..] == [];
    } else {
      assert (ops + [op])[0] == ops[0] && (ops + [op])[1..] == ops[1..] + [op];
      AfterConserved(sys, all, ops[0], rewrite);
      Extend(After(sys, ops[0], rewrite), all, ops[1..], op, rewrite);
    }
  }

  // From the empty system, every run can go on with every operation of an existing process on a
  // table index: `CanRun` excludes nothing else.
  lemma EveryCallRuns(n: nat, ops: seq<SysOp>, op: SysOp, rewrite: bool)
    requires RamOk(n) && CanRun(Boot(n), ops, rewrite) && Callable(Run(Boot(n), ops, rewrite), op)
    ensures CanRun(Boot(n), ops + [op], rewrite)
  {
    BootConserved(n);
    Extend(Boot(n), Frames(n), ops, op, rewrite);
  }

  // ---------- entries that are no pages of the area ----------

  ghost predicate IsPage(q: Path) { exists i :: 0 <= i < PAGES && PagePath(i) == q }

  /** No process has an entry at path q. */
  ghost predicate Quiet(sys: Sys, q: Path) {
    forall p :: 0 <= p < |sys.spaces| ==> Lookup(sys.spaces[p].tables.tree, q) == 0
  }

  lemma SupplyQuiet(sys: Sys, p: nat, h: Heap, q: Path)
    requires p < |sys.spaces| && SpaceOk(sys.spaces[p]) && Quiet(sys, q) && !IsPage(q)
    requires Pages(sys.spaces[p]) + Needed(sys.spaces[p], h) <= PAGES
    ensures Quiet(Supply(sys, p, h), q)
  {
    var s, n := sys.spaces[p], Needed(sys.spaces[p], h);
    assert Lookup(s.tables.tree, q) == 0;
    if n <= |sys.free| {
      MappedOthers(s.tables, Pages(s), Reversed(sys.free[..n]), q);
    }
    hide Lookup, Mapped, PagePath;
  }

  lemma AfterQuiet(sys: Sys, op: SysOp, rewrite: bool, q: Path)
    requires SpacesOk(sys.spaces) && Callable(sys, op) && Quiet(sys, q) && !IsPage(q)
    ensures Quiet(After(sys, op, rewrite), q)
  {
    if op.LoadOp? {
      hide PagePath, IsPage;
      assert Lookup(NewSpace().tables.tree, q) == 0;
      hide Lookup, NewSpace;
    } else {
      assert SpaceOk(sys.spaces[op.p]);
      HeapMoves(sys, op, rewrite);
      SupplyQuiet(sys, op.p, HeapAfter(sys, op, rewrite), q);
    }
  }

  // Growth touches no entry outside the pages of the vm area.
  lemma {:induction false} RunQuiet(sys: Sys, ops: seq<SysOp>, rewrite: bool, q: Path)
    requires CanRun(sys, ops, rewrite) && Quiet(sys, q) && !IsPage(q)
    ensures Quiet(Run(sys, ops, rewrite), q)
    decreases |ops|
  {
    if ops == [] {
    } else {
      AfterQuiet(sys, ops[0], rewrite, q);
      RunQuiet(After(sys, ops[0], rewrite), ops[1..], rewrite, q);
    }
  }

  function EntryAtPath(sys: Sys, p: nat, q: Path): bv64
    requires p < |sys.spaces|
  {
    Lookup(sys.spaces[p].tables.tree, q)
  }

  lemma PresentIsPage(n: nat, ops: seq<SysOp>, rewrite: bool, p: nat, q: Path)
    requires CanRun(Boot(n), ops, rewrite)
    ensures var sys := Run(Boot(n), ops, rewrite);
            p < |sys.spaces| && Present(EntryAtPath(sys, p, q)) ==> IsPage(q)
  {
    if !IsPage(q) {
      RunQuiet(Boot(n), ops, rewrite, q);
    }
  }

  // ---------- exclusivity ----------

  lemma PagesExclusive(n: nat, sys: Sys, p: nat, i: nat, q: nat, j: nat)
    requires n <= 8192 && Conserved(sys, Frames(n)) && i < PAGES && j < PAGES
    requires p < |sys.spaces| && q < |sys.spaces|
    ensures Present(PageEntry(sys.spaces[p], i)) ==>
            var f := Fpn(PageEntry(sys.spaces[p], i));
            && (exists k :: 0 <= k < n && Word(k) == f)
            && f !in sys.free
            && (Present(PageEntry(sys.spaces[q], j)) && Fpn(PageEntry(sys.spaces[q], j)) == f ==> p == q && i == j)
  {
    hide PagePath, Lookup, Present, Fpn;
    if Present(PageEntry(sys.spaces[p], i)) {
      var f := Fpn(PageEntry(sys.spaces[p], i));
      assert Places(sys, f) == Occurs(Frames(n), f);
      FramesOnce(n, f);
      PagesAtLeast(sys.spaces[p].tables.tree, f, i, PAGES);
      SpacesAtLeast(sys.spaces, p, f);
      OccursMember(sys.free, f);
      if Present(PageEntry(sys.spaces[q], j)) && Fpn(PageEntry(sys.spaces[q], j)) == f {
        PagesAtLeast(sys.spaces[q].tables.tree, f, j, PAGES);
        if p == q && i != j {
          PagesPair(sys.spaces[p].tables.tree, f, if i < j then i else j, if i < j then j else i, PAGES);
        } else if p != q {
          SpacesPair(sys.spaces, p, q, f);
        }
      }
    }
  }

  // Frame exclusivity. RAM of at most 2^21 bytes; any number of processes; any interleaving of
  // allocations and releases, also past the point where RAM is exhausted, with the list head
  // rewritten or not; any two paths through the tables: a frame decoded from a present entry is a
  // frame of the device, it is decoded from no other present entry of any process, and it is not
  // on the free list.
  lemma FrameExclusive(maxsz: nat, ops: seq<SysOp>, rewrite: bool, p: nat, a: Path, q: nat, b: Path)
    requires RamOk(maxsz / FRAME_BYTES) && CanRun(Boot(maxsz / FRAME_BYTES), ops, rewrite)
    ensures var sys := Run(Boot(maxsz / FRAME_BYTES), ops, rewrite);
            p < |sys.spaces| && q < |sys.spaces| && Present(EntryAtPath(sys, p, a)) ==>
              var f := Fpn(EntryAtPath(sys, p, a));
              && (exists k :: 0 <= k < maxsz / FRAME_BYTES && Word(k) == f)
              && f !in sys.free
              && (Present(EntryAtPath(sys, q, b)) && Fpn(EntryAtPath(sys, q, b)) == f ==> p == q && a == b)
  {
    var n := maxsz / FRAME_BYTES;
    BootConserved(n);
    RunConserved(Boot(n), Frames(n), ops, rewrite);
    PresentIsPage(n, ops, rewrite, p, a);
    PresentIsPage(n, ops, rewrite, q, b);
    var sys := Run(Boot(n), ops, rewrite);
    hide PagePath, Lookup, Present, Fpn, Run, CanRun, Conserved, Boot;
    if p < |sys.spaces| && q < |sys.spaces| && Present(EntryAtPath(sys, p, a)) {
      var i :| 0 <= i < PAGES && PagePath(i) == a;
      PagesExclusive(n, sys, p, i, q, i);
      if Present(EntryAtPath(sys, q, b)) {
        var j :| 0 <= j < PAGES && PagePath(j) == b;
        PagesExclusive(n, sys, p, i, q, j);
      }
    }
  }

  // ---------- MEMPHY_put_freefp ----------

  /** The system after frame f was put back at the head of the free list. */
  function Put(sys: Sys, f: bv64): Sys { sys.(free := [f] + sys.free) }

  /** Every frame is in at most one present page, or free, and then once. */
  ghost predicate Exclusive(sys: Sys) { forall f :: SpacesTo(sys.spaces, f) + Occurs(sys.free, f) <= 1 }

  // Putting a frame back keeps the frames exclusive exactly when it is neither mapped nor free.
  lemma PutExactly(sys: Sys, f: bv64)
    requires Exclusive(sys)
    ensures Exclusive(Put(sys, f)) <==> SpacesTo(sys.spaces, f) == 0 && f !in sys.free
  {
    hide SpacesTo;
    assert forall g :: Occurs(Put(sys, f).free, g) == Occurs(sys.free, g) + (if f == g then 1 else 0) by {
      assert ([f] + sys.free)[1..] == sys.free;
    }
    OccursMember(sys.free, f);
    assert SpacesTo(sys.spaces, f) + Occurs(sys.free, f) <= 1;
    forall g | SpacesTo(sys.spaces, f) == 0 && f !in sys.free
      ensures SpacesTo(sys.spaces, g) + Occurs(Put(sys, f).free, g) <= 1
    {
      assert SpacesTo(sys.spaces, g) + Occurs(sys.free, g) <= 1;
    }
    if Exclusive(Put(sys, f)) {
      assert SpacesTo(Put(sys, f).spaces, f) + Occurs(Put(sys, f).free, f) <= 1;
    }
  }

  // So a frame that a failed allocation lost may be put back, at any time of any run.
  lemma LostMayReturn(n: nat, ops: seq<SysOp>, rewrite: bool, f: bv64)
    requires RamOk(n) && CanRun(Boot(n), ops, rewrite)
    ensures var sys := Run(Boot(n), ops, rewrite);
            Exclusive(sys) && (f in sys.lost ==> Exclusive(Put(sys, f)))
  {
    var sys := Run(Boot(n), ops, rewrite);
    BootConserved(n);
    RunConserved(Boot(n), Frames(n), ops, rewrite);
    forall g
      ensures SpacesTo(sys.spaces, g) + Occurs(sys.free, g) <= 1
    {
      assert Places(sys, g) == Occurs(Frames(n), g);
      FramesOnce(n, g);
    }
    assert Places(sys, f) == Occurs(Frames(n), f);
    FramesOnce(n, f);
    OccursMember(sys.lost, f);
    OccursMember(sys.free, f);
    PutExactly(sys, f);
  }

  lemma {:induction false} OccursMember(l: seq<bv64>, f: bv64)
    ensures Occurs(l, f) > 0 <==> f in l
  {
    if l == [] {
    } else {
      OccursMember(l[1..], f);
    }
  }
}
