/** When the mapped pages are exactly the pages below the break, and where all the frames then are. */
module Mapping {
  import opened Pte
  import opened PageTable
  import opened Memory
  import opened UserHeap
  import opened FrameOwners

  /** Path q leads to one of the pages 0 .. sbrk/4096 - 1. */
  ghost predicate BelowBreak(s: Space, q: Path) { exists i :: 0 <= i < Pages(s) && PagePath(i) == q }

  /** The present entries of a process, along any path, are exactly those of the pages below its break. */
  ghost predicate MappedExactly(s: Space) { forall q: Path :: Present(Lookup(s.tables.tree, q)) <==> BelowBreak(s, q) }

  ghost predicate AllMapped(sys: Sys) { forall p :: 0 <= p < |sys.spaces| ==> MappedExactly(sys.spaces[p]) }

  /** The same for the pages of the vm area only. */
  ghost predicate SpaceComplete(s: Space) {
    forall i :: 0 <= i < PAGES ==> (Present(PageEntry(s, i)) <==> i < Pages(s))
  }

  ghost predicate AllComplete(spaces: seq<Space>) { forall p :: 0 <= p < |spaces| ==> SpaceComplete(spaces[p]) }

  ghost predicate Complete(sys: Sys) { AllComplete(sys.spaces) }

  /** No page at or above the break is present. */
  ghost predicate Fresh(s: Space) { forall i :: Pages(s) <= i < PAGES ==> !Present(PageEntry(s, i)) }

  ghost predicate AllFresh(spaces: seq<Space>) { forall p :: 0 <= p < |spaces| ==> Fresh(spaces[p]) }

  /** The step is an allocation that has to grow the break by more pages than frames are free. */
  predicate Short(sys: Sys, op: SysOp)
    requires FrameOwners.Callable(sys, op)
  {
    op.AllocIn? && Grows(sys.spaces[op.p].heap, op.size, op.listed) && Align(op.size) / PAGE > |sys.free|
  }

  // That is when `alloc_pages_range` runs out of frames.
  lemma ShortMeansNeeded(sys: Sys, op: SysOp, rewrite: bool)
    requires FrameOwners.Callable(sys, op) && !op.LoadOp? && SpaceOk(sys.spaces[op.p])
    ensures Short(sys, op) <==> Needed(sys.spaces[op.p], HeapAfter(sys, op, rewrite)) > |sys.free|
  {
    hide PageEntry, Grows;
    if op.AllocIn? {
      AllocBreak(sys.spaces[op.p].heap, op.rgid, op.size, op.listed, rewrite);
      AlignFacts(op.size);
      hide UserHeap.Alloc, Lowers, Align;
    }
  }

  /** The supply moves the break up by the pages it asks for. */
  ghost predicate GrowsBy(sys: Sys, p: nat, h: Heap) {
    && Suppliable(sys, p, h) && Wf(sys.spaces[p].tables.tree)
    && h.sbrk / PAGE == Pages(sys.spaces[p]) + Needed(sys.spaces[p], h)
  }

  /** What a supply does to the present pages of its process. */
  lemma SupplyPresent(sys: Sys, p: nat, h: Heap, i: nat)
    requires GrowsBy(sys, p, h) && i < PAGES
    ensures var s, t := sys.spaces[p], Supply(sys, p, h).spaces[p];
            && Pages(t) == Pages(s) + Needed(s, h)
            && (Present(PageEntry(t, i)) <==> Present(PageEntry(s, i)) || (Needed(s, h) <= |sys.free| && Pages(s) <= i < Pages(t)))
  {
    var s, n := sys.spaces[p], Needed(sys.spaces[p], h);
    assert SpaceOk(s);
    hide PagePath, Lookup, Mapped, Present, Overwritten;
    if n <= |sys.free| {
      GrownPresent(s, h, Reversed(sys.free[..n]), i);
    }
  }

  lemma SpaceCompleteExactly(s: Space, t: Space, enough: bool)
    requires Pages(s) <= Pages(t) <= PAGES && (!enough ==> Pages(s) < Pages(t))
    requires Fresh(s)
    requires forall i :: 0 <= i < PAGES ==>
               (Present(PageEntry(t, i)) <==> Present(PageEntry(s, i)) || (enough && Pages(s) <= i < Pages(t)))
    ensures Fresh(t) && (SpaceComplete(t) <==> SpaceComplete(s) && enough)
  {
    hide PageEntry, Present, Pages;
    if enough {
      forall i | 0 <= i < PAGES
        ensures (Present(PageEntry(s, i)) <==> i < Pages(s)) <==> (Present(PageEntry(t, i)) <==> i < Pages(t))
      {}
    } else {
      assert !Present(PageEntry(t, Pages(s)));
    }
  }

  lemma SupplyCompleteExactly(sys: Sys, p: nat, h: Heap)
    requires GrowsBy(sys, p, h) && AllFresh(sys.spaces)
    ensures AllFresh(Supply(sys, p, h).spaces)
    ensures Complete(Supply(sys, p, h)) <==> Complete(sys) && Needed(sys.spaces[p], h) <= |sys.free|
  {
    var s, t := sys.spaces[p], Supply(sys, p, h).spaces;
    SupplyPresent(sys, p, h, 0);
    forall i | 0 <= i < PAGES
      ensures Present(PageEntry(t[p], i)) <==>
              Present(PageEntry(s, i)) || (Needed(s, h) <= |sys.free| && Pages(s) <= i < Pages(t[p]))
    {
      SupplyPresent(sys, p, h, i);
    }
    assert t == sys.spaces[p := t[p]] && h.sbrk / PAGE <= PAGES && Fresh(s);
    hide PageEntry, Present, FrameOwners.Grown, Needed, BreakOk, Mapped, Pages, Supply, SpaceOk, SpaceComplete, Fresh;
    SpaceCompleteExactly(s, t[p], Needed(s, h) <= |sys.free|);
    OneSpaceDecides(sys.spaces, p, t[p], Needed(s, h) <= |sys.free|);
  }

  lemma OneSpaceDecides(spaces: seq<Space>, p: nat, t: Space, enough: bool)
    requires p < |spaces| && (SpaceComplete(t) <==> SpaceComplete(spaces[p]) && enough)
    ensures AllComplete(spaces[p := t]) <==> AllComplete(spaces) && enough
  {
    hide SpaceComplete;
    var u := spaces[p := t];
    assert u[p] == t && forall q :: 0 <= q < |spaces| && q != p ==> u[q] == spaces[q];
  }

  lemma LoadComplete(sys: Sys, rewrite: bool)
    requires SpacesOk(sys.spaces)
    ensures Complete(After(sys, LoadOp, rewrite)) <==> Complete(sys)
    ensures AllFresh(sys.spaces) ==> AllFresh(After(sys, LoadOp, rewrite).spaces)
  {
    forall i | 0 <= i < PAGES
      ensures !Present(PageEntry(NewSpace(), i))
    {
      EmptyTreeMapsNothing(i);
    }
    var t := After(sys, LoadOp, rewrite);
    assert Pages(NewSpace()) == 0;
    hide NewSpace, PageEntry, Present;
    assert forall p :: 0 <= p < |sys.spaces| ==> t.spaces[p] == sys.spaces[p];
  }

  // A step that does not lower the break leaves every process completely mapped exactly when all
  // were and the frames sufficed.
  lemma AfterCompleteExactly(sys: Sys, all: seq<bv64>, op: SysOp, rewrite: bool)
    requires Conserved(sys, all) && FrameOwners.Callable(sys, op) && AllFresh(sys.spaces) && !LowersBreak(sys, op)
    ensures AllFresh(After(sys, op, rewrite).spaces)
    ensures Complete(After(sys, op, rewrite)) <==> Complete(sys) && !Short(sys, op)
  {
    if op.LoadOp? {
      LoadComplete(sys, rewrite);
    } else {
      assert SpaceOk(sys.spaces[op.p]);
      HeapMoves(sys, op, rewrite);
      ShortMeansNeeded(sys, op, rewrite);
      hide LowersBreak, SpaceOk, Short, HeapAfter, AllFresh, AllComplete;
      SupplyCompleteExactly(sys, op.p, HeapAfter(sys, op, rewrite));
      hide Supply;
    }
  }

  // A step that lowers the break leaves a present page above it.
  lemma AfterLowered(sys: Sys, op: SysOp, rewrite: bool)
    requires SpacesOk(sys.spaces) && FrameOwners.Callable(sys, op) && Complete(sys) && LowersBreak(sys, op)
    ensures !Complete(After(sys, op, rewrite)) && !Short(sys, op)
  {
    var s, t := sys.spaces[op.p], After(sys, op, rewrite).spaces[op.p];
    assert SpaceOk(s) && SpaceComplete(s);
    HeapMoves(sys, op, rewrite);
    ShortMeansNeeded(sys, op, rewrite);
    assert t.tables == s.tables && Pages(t) < Pages(s) <= PAGES;
    assert PageEntry(t, Pages(t)) == PageEntry(s, Pages(t));
    hide After, HeapAfter, LowersBreak, Short;
    assert !SpaceComplete(t);
  }

  // ---------- whole runs ----------

  /** No step of the run needs more frames than are free at its moment. */
  ghost predicate NeverShort(sys: Sys, ops: seq<SysOp>, rewrite: bool)
    requires FrameOwners.CanRun(sys, ops, rewrite)
    decreases |ops|
  {
    ops != [] ==> !Short(sys, ops[0]) && NeverShort(After(sys, ops[0], rewrite), ops[1..], rewrite)
  }

  /** No allocation of the run has a size whose sum with the break wraps and lowers the break. */
  ghost predicate NeverLowers(sys: Sys, ops: seq<SysOp>, rewrite: bool)
    requires FrameOwners.CanRun(sys, ops, rewrite)
    decreases |ops|
  {
    ops != [] ==> !LowersBreak(sys, ops[0]) && NeverLowers(After(sys, ops[0], rewrite), ops[1..], rewrite)
  }

  lemma {:induction false} RunComplete(sys: Sys, all: seq<bv64>, ops: seq<SysOp>, rewrite: bool)
    requires Conserved(sys, all) && FrameOwners.CanRun(sys, ops, rewrite)
    requires AllFresh(sys.spaces) && NeverLowers(sys, ops, rewrite)
    ensures Complete(FrameOwners.Run(sys, ops, rewrite)) <==> Complete(sys) && NeverShort(sys, ops, rewrite)
    decreases |ops|
  {
    if ops == [] {
    } else {
      AfterConserved(sys, all, ops[0], rewrite);
      AfterCompleteExactly(sys, all, ops[0], rewrite);
      RunComplete(After(sys, ops[0], rewrite), all, ops[1..], rewrite);
    }
  }

  lemma CompleteIsMapped(s: Space)
    requires Pages(s) <= PAGES && forall q: Path :: !IsPage(q) ==> Lookup(s.tables.tree, q) == 0
    ensures SpaceComplete(s) <==> MappedExactly(s)
  {
    hide PagePath, Lookup;
    if SpaceComplete(s) {
      forall q: Path
        ensures Present(Lookup(s.tables.tree, q)) <==> BelowBreak(s, q)
      {
        if IsPage(q) {
          var i :| 0 <= i < PAGES && PagePath(i) == q;
          SamePage(s, i);
          assert Present(PageEntry(s, i)) <==> i < Pages(s);
        }
      }
    }
    if MappedExactly(s) {
      forall i | 0 <= i < PAGES
        ensures Present(PageEntry(s, i)) <==> i < Pages(s)
      {
        SamePage(s, i);
        assert Present(Lookup(s.tables.tree, PagePath(i))) <==> BelowBreak(s, PagePath(i));
      }
    }
  }

  lemma SamePage(s: Space, i: nat)
    requires i < PAGES && Pages(s) <= PAGES
    ensures BelowBreak(s, PagePath(i)) <==> i < Pages(s)
  {
    hide PagePath;
    if BelowBreak(s, PagePath(i)) {
      var k :| 0 <= k < Pages(s) && PagePath(k) == PagePath(i);
      PagePathInjective(k, i);
    }
  }

  /** No process has an entry outside the pages of the vm area. */
  ghost predicate QuietOutside(sys: Sys) { forall q: Path :: !IsPage(q) ==> Quiet(sys, q) }

  lemma BootQuiet(n: nat)
    ensures QuietOutside(Boot(n)) && AllMapped(Boot(n)) && Complete(Boot(n)) && AllFresh(Boot(n).spaces)
  {}

  lemma AfterQuietOutside(sys: Sys, op: SysOp, rewrite: bool)
    requires SpacesOk(sys.spaces) && FrameOwners.Callable(sys, op) && QuietOutside(sys)
    ensures QuietOutside(After(sys, op, rewrite))
  {
    forall q: Path | !IsPage(q)
      ensures Quiet(After(sys, op, rewrite), q)
    {
      hide IsPage, After;
      AfterQuiet(sys, op, rewrite, q);
    }
  }

  lemma CompleteIsAllMapped(sys: Sys)
    requires SpacesOk(sys.spaces) && QuietOutside(sys)
    ensures Complete(sys) <==> AllMapped(sys)
  {
    forall p | 0 <= p < |sys.spaces|
      ensures SpaceComplete(sys.spaces[p]) <==> MappedExactly(sys.spaces[p])
    {
      hide PagePath, Lookup, IsPage;
      assert SpaceOk(sys.spaces[p]);
      forall q: Path | !IsPage(q)
        ensures Lookup(sys.spaces[p].tables.tree, q) == 0
      {
        assert Quiet(sys, q);
      }
      CompleteIsMapped(sys.spaces[p]);
    }
    hide SpaceComplete, MappedExactly;
  }

  // Mapping completeness: at the end of a run that never lowers a break, the present entries of
  // every process are exactly those of pages 0 .. sbrk/4096 - 1 if and only if no growth of the
  // run exceeded the frames then free.
  lemma MappingComplete(n: nat, ops: seq<SysOp>, rewrite: bool)
    requires RamOk(n) && FrameOwners.CanRun(Boot(n), ops, rewrite) && NeverLowers(Boot(n), ops, rewrite)
    ensures AllMapped(FrameOwners.Run(Boot(n), ops, rewrite)) <==> NeverShort(Boot(n), ops, rewrite)
  {
    BootConserved(n);
    BootQuiet(n);
    RunComplete(Boot(n), Frames(n), ops, rewrite);
    RunConserved(Boot(n), Frames(n), ops, rewrite);
    var sys := FrameOwners.Run(Boot(n), ops, rewrite);
    forall q: Path | !IsPage(q)
      ensures Quiet(sys, q)
    {
      hide IsPage, FrameOwners.Run;
      RunQuiet(Boot(n), ops, rewrite, q);
    }
    CompleteIsAllMapped(sys);
    hide AllMapped, Complete, NeverShort, FrameOwners.Run;
  }

  ghost predicate MappedAllAlong(sys: Sys, ops: seq<SysOp>, rewrite: bool)
    requires FrameOwners.CanRun(sys, ops, rewrite)
    decreases |ops|
  {
    AllMapped(sys) && (ops != [] ==> MappedAllAlong(After(sys, ops[0], rewrite), ops[1..], rewrite))
  }

  lemma AfterMappedExactly(sys: Sys, all: seq<bv64>, op: SysOp, rewrite: bool)
    requires Conserved(sys, all) && FrameOwners.Callable(sys, op) && QuietOutside(sys) && AllMapped(sys)
    ensures var t := After(sys, op, rewrite);
            Conserved(t, all) && QuietOutside(t) && (AllMapped(t) <==> !Short(sys, op) && !LowersBreak(sys, op))
  {
    AfterConserved(sys, all, op, rewrite);
    AfterQuietOutside(sys, op, rewrite);
    CompleteIsAllMapped(sys);
    CompleteIsAllMapped(After(sys, op, rewrite));
    if LowersBreak(sys, op) {
      AfterLowered(sys, op, rewrite);
    } else {
      CompleteIsFresh(sys);
      AfterCompleteExactly(sys, all, op, rewrite);
    }
    hide Conserved, QuietOutside, AllMapped, Complete, Short, LowersBreak, After;
  }

  lemma CompleteIsFresh(sys: Sys)
    requires Complete(sys)
    ensures AllFresh(sys.spaces)
  {
    hide PageEntry, Present, Pages;
  }

  lemma {:induction false} RunMapped(sys: Sys, all: seq<bv64>, ops: seq<SysOp>, rewrite: bool)
    requires Conserved(sys, all) && FrameOwners.CanRun(sys, ops, rewrite) && QuietOutside(sys) && AllMapped(sys)
    ensures MappedAllAlong(sys, ops, rewrite) <==> NeverShort(sys, ops, rewrite) && NeverLowers(sys, ops, rewrite)
    decreases |ops|
  {
    if ops == [] {
    } else {
      AfterMappedExactly(sys, all, ops[0], rewrite);
      var t := After(sys, ops[0], rewrite);
      hide AllMapped, QuietOutside, Conserved, Short, LowersBreak, After;
      if AllMapped(t) {
        RunMapped(t, all, ops[1..], rewrite);
      }
    }
  }

  // For runs of any sizes: every process is exactly mapped at every point of the run if and only
  // if no growth exceeds the free frames and no allocation lowers a break.
  lemma MappedThroughExactly(n: nat, ops: seq<SysOp>, rewrite: bool)
    requires RamOk(n) && FrameOwners.CanRun(Boot(n), ops, rewrite)
    ensures MappedAllAlong(Boot(n), ops, rewrite) <==>
            NeverShort(Boot(n), ops, rewrite) && NeverLowers(Boot(n), ops, rewrite)
  {
    BootConserved(n);
    BootQuiet(n);
    RunMapped(Boot(n), Frames(n), ops, rewrite);
  }

  // A run that is short: three pages of address space on two frames. The break moves, both
  // frames are lost and nothing is mapped.
  lemma ShortRun()
    ensures var ops := [LoadOp, AllocIn(0, 0, 12288, true)];
            && FrameOwners.CanRun(Boot(2), ops, true)
            && var sys := FrameOwners.Run(Boot(2), ops, true);
            && |sys.spaces| == 1 && sys.spaces[0].heap.sbrk == 12288
            && sys.free == [] && sys.lost == Frames(2)
            && forall q: Path :: !Present(EntryAtPath(sys, 0, q))
  {
    var load, grow := LoadOp, AllocIn(0, 0, 12288, true);
    BootConserved(2);
    var one := After(Boot(2), load, true);
    assert one == Sys([NewSpace()], Frames(2), []);
    AfterConserved(Boot(2), Frames(2), load, true);
    ShortStep(one);
    hide After;
    RunCons(one, grow, [], true);
    RunCons(Boot(2), load, [grow] + [], true);
    assert [load] + ([grow] + []) == [load, grow];
  }

  lemma ShortStep(one: Sys)
    requires one == Sys([NewSpace()], Frames(2), []) && SpacesOk(one.spaces)
    ensures var t := After(one, AllocIn(0, 0, 12288, true), true);
            && |t.spaces| == 1 && t.spaces[0].heap.sbrk == 12288 && t.free == [] && t.lost == Frames(2)
            && forall q: Path :: !Present(Lookup(t.spaces[0].tables.tree, q))
  {
    var h := HeapAfter(one, AllocIn(0, 0, 12288, true), true);
    ThreePages();
    hide HeapAfter, UserHeap.Alloc;
    assert Needed(NewSpace(), h) == 3;
    assert [] + Frames(2) == Frames(2);
    hide Needed, NewHeap, Frames, Lookup, Present;
    forall q: Path
      ensures !Present(Lookup(EMPTY_TREE, q))
    {
      EmptyLookup(q);
    }
  }

  lemma ThreePages()
    ensures UserHeap.Alloc(NewHeap(), 0, 12288, true, true).0.sbrk == 12288
  {
    assert Align(12288) == 12288;
    AllocBreak(NewHeap(), 0, 12288, true, true);
    hide UserHeap.Alloc;
  }

  /** One process, whose break is at 4096 with page 1 present above it. */
  ghost predicate Lowered(sys: Sys) {
    |sys.spaces| == 1 && sys.spaces[0].heap.sbrk == 4096 && Present(PageEntry(sys.spaces[0], 1))
  }

  // A run that lowers the break: two pages are mapped, and a size of 2^64 - 5000 then moves the
  // break down to 4096 with page 1 still present above it.
  lemma LoweredRun()
    ensures var ops := [LoadOp] + ([AllocIn(0, 0, 8192, true)] + ([AllocIn(0, 1, 0xffff_ffff_ffff_ec78, true)] + []));
            FrameOwners.CanRun(Boot(4), ops, true) && Lowered(FrameOwners.Run(Boot(4), ops, true))
  {
    var load, grow, wrap := LoadOp, AllocIn(0, 0, 8192, true), AllocIn(0, 1, 0xffff_ffff_ffff_ec78, true);
    BootConserved(4);
    AfterConserved(Boot(4), Frames(4), load, true);
    var one := After(Boot(4), load, true);
    assert one == Sys([NewSpace()], Frames(4), []);
    assert SpacesOk(Boot(4).spaces);
    hide After, Conserved, Lowered, SpacesOk, FrameOwners.CanRun, FrameOwners.Run, Boot, NewSpace;
    LoweredTail(one);
    RunCons(Boot(4), load, [grow] + ([wrap] + []), true);
  }

  lemma LoweredTail(one: Sys)
    requires one == Sys([NewSpace()], Frames(4), []) && Conserved(one, Frames(4))
    ensures var ops := [AllocIn(0, 0, 8192, true)] + ([AllocIn(0, 1, 0xffff_ffff_ffff_ec78, true)] + []);
            FrameOwners.CanRun(one, ops, true) && Lowered(FrameOwners.Run(one, ops, true))
  {
    var grow, wrap := AllocIn(0, 0, 8192, true), AllocIn(0, 1, 0xffff_ffff_ffff_ec78, true);
    MappedTwoPages(one);
    AfterConserved(one, Frames(4), grow, true);
    var two := After(one, grow, true);
    LoweredStep(two);
    assert FrameOwners.CanRun(After(two, wrap, true), [], true);
    assert FrameOwners.Run(After(two, wrap, true), [], true) == After(two, wrap, true);
    hide After, PageEntry, Present, SpaceOk, FrameOwners.CanRun, FrameOwners.Run, NewSpace, Places;
    RunCons(two, wrap, [], true);
    RunCons(one, grow, [wrap] + [], true);
  }

  lemma MappedTwoPages(one: Sys)
    requires one == Sys([NewSpace()], Frames(4), []) && Conserved(one, Frames(4))
    ensures var two := After(one, AllocIn(0, 0, 8192, true), true);
            && |two.spaces| == 1 && two.spaces[0].heap.sbrk == 8192 && two.spaces[0].heap.free == []
            && Present(PageEntry(two.spaces[0], 1))
  {
    var op := AllocIn(0, 0, 8192, true);
    NewHeapParts();
    TwoPages(NewHeap(), true);
    HeapMoves(one, op, true);
    var h := HeapAfter(one, op, true);
    assert h == Step(NewHeap(), AllocOp(0, 8192, true), true);
    assert !LowersBreak(one, op) by { hide FrameOwners.Callable; assert NewHeap().sbrk + 8192 < ADDRS; }
    hide HeapAfter, LowersBreak, UserHeap.Alloc, Step;
    assert Needed(NewSpace(), h) == 2;
    SupplyPresent(one, 0, h, 1);
    hide PageEntry, Present, NewSpace, Frames;
  }

  lemma LoweredStep(two: Sys)
    requires SpacesOk(two.spaces) && |two.spaces| == 1
    requires two.spaces[0].heap.sbrk == 8192 && two.spaces[0].heap.free == [] && Present(PageEntry(two.spaces[0], 1))
    ensures var t := After(two, AllocIn(0, 1, 0xffff_ffff_ffff_ec78, true), true);
            |t.spaces| == 1 && t.spaces[0].heap.sbrk == 4096 && Present(PageEntry(t.spaces[0], 1))
  {
    var op := AllocIn(0, 1, 0xffff_ffff_ffff_ec78, true);
    assert SpaceOk(two.spaces[0]);
    var h := HeapAfter(two, op, true);
    WrappedStep(two.spaces[0].heap, true);
    assert h == Step(two.spaces[0].heap, AllocOp(1, 0xffff_ffff_ffff_ec78, true), true);
    hide HeapAfter, UserHeap.Alloc, Step, PageEntry, Present;
    assert Needed(two.spaces[0], h) == 0;
    assert After(two, op, true).spaces[0].tables == two.spaces[0].tables;
    SameTables(two.spaces[0], After(two, op, true).spaces[0], 1);
  }

  lemma SameTables(s: Space, t: Space, i: nat)
    requires s.tables == t.tables
    ensures PageEntry(s, i) == PageEntry(t, i)
  {}

  lemma EmptyLookup(q: Path)
    ensures Lookup(EMPTY_TREE, q) == 0 && !Present(0)
  {}

  // ---------- conservation of frames ----------

  function TotalPages(spaces: seq<Space>): nat {
    if spaces == [] then 0 else Pages(spaces[0]) + TotalPages(spaces[1..])
  }

  /** The pages below all breaks, plus the free frames. */
  function Committed(sys: Sys): nat { TotalPages(sys.spaces) + |sys.free| }

  lemma {:induction false} TotalUpdate(spaces: seq<Space>, p: nat, s: Space)
    requires p < |spaces|
    ensures TotalPages(spaces[p := s]) + Pages(spaces[p]) == TotalPages(spaces) + Pages(s)
  {
    if p == 0 {
      assert spaces[p := s][1..] == spaces[1..];
    } else {
      assert spaces[p := s][1..] == spaces[1..][p - 1 := s];
      TotalUpdate(spaces[1..], p - 1, s);
    }
  }

  lemma {:induction false} TotalAppend(spaces: seq<Space>, s: Space)
    ensures TotalPages(spaces + [s]) == TotalPages(spaces) + Pages(s)
  {
    if spaces == [] {
      assert [] + [s] == [s] && [s][1..] == [];
    } else {
      assert (spaces + [s])[0] == spaces[0] && (spaces + [s])[1..] == spaces[1..] + [s];
      TotalAppend(spaces[1..], s);
    }
  }

  lemma AfterCommitted(sys: Sys, op: SysOp, rewrite: bool)
    requires SpacesOk(sys.spaces) && FrameOwners.Callable(sys, op)
    ensures var before, after := Committed(sys), Committed(After(sys, op, rewrite));
            && (after > before <==> Short(sys, op)) && (after < before <==> LowersBreak(sys, op))
  {
    if op.LoadOp? {
      TotalAppend(sys.spaces, NewSpace());
    } else {
      assert SpaceOk(sys.spaces[op.p]);
      HeapMoves(sys, op, rewrite);
      ShortMeansNeeded(sys, op, rewrite);
      hide HeapAfter, Short, SpaceOk, BreakOk, LowersBreak, Overwritten, Mapped;
      TotalUpdate(sys.spaces, op.p, After(sys, op, rewrite).spaces[op.p]);
    }
  }

  lemma {:induction false} RunCommitted(sys: Sys, all: seq<bv64>, ops: seq<SysOp>, rewrite: bool)
    requires Conserved(sys, all) && FrameOwners.CanRun(sys, ops, rewrite) && NeverLowers(sys, ops, rewrite)
    ensures Committed(FrameOwners.Run(sys, ops, rewrite)) >= Committed(sys)
    ensures Committed(FrameOwners.Run(sys, ops, rewrite)) == Committed(sys) <==> NeverShort(sys, ops, rewrite)
    decreases |ops|
  {
    if ops == [] {
    } else {
      AfterConserved(sys, all, ops[0], rewrite);
      AfterCommitted(sys, ops[0], rewrite);
      hide After, Short, LowersBreak, Committed;
      RunCommitted(After(sys, ops[0], rewrite), all, ops[1..], rewrite);
    }
  }

  // Frame conservation: in the runs that never lower a break, the pages below all breaks and the
  // free frames add up to the frames of the device exactly when no growth exceeded them.
  lemma FrameConservation(maxsz: nat, ops: seq<SysOp>, rewrite: bool)
    requires RamOk(maxsz / FRAME_BYTES) && FrameOwners.CanRun(Boot(maxsz / FRAME_BYTES), ops, rewrite)
    requires NeverLowers(Boot(maxsz / FRAME_BYTES), ops, rewrite)
    ensures var sys := FrameOwners.Run(Boot(maxsz / FRAME_BYTES), ops, rewrite);
            TotalPages(sys.spaces) + |sys.free| == maxsz / FRAME_BYTES <==> NeverShort(Boot(maxsz / FRAME_BYTES), ops, rewrite)
  {
    var n := maxsz / FRAME_BYTES;
    BootConserved(n);
    RunCommitted(Boot(n), Frames(n), ops, rewrite);
  }

  /** The sum is n at every point of the run. */
  ghost predicate CommittedAllAlong(sys: Sys, ops: seq<SysOp>, rewrite: bool, n: nat)
    requires FrameOwners.CanRun(sys, ops, rewrite)
    decreases |ops|
  {
    Committed(sys) == n && (ops != [] ==> CommittedAllAlong(After(sys, ops[0], rewrite), ops[1..], rewrite, n))
  }

  lemma {:induction false} RunCommittedAllAlong(sys: Sys, ops: seq<SysOp>, rewrite: bool)
    requires FrameOwners.CanRun(sys, ops, rewrite)
    ensures CommittedAllAlong(sys, ops, rewrite, Committed(sys)) <==>
            NeverShort(sys, ops, rewrite) && NeverLowers(sys, ops, rewrite)
    decreases |ops|
  {
    if ops == [] {
    } else {
      AfterCommitted(sys, ops[0], rewrite);
      RunCommittedAllAlong(After(sys, ops[0], rewrite), ops[1..], rewrite);
      hide After, Short, LowersBreak, Committed;
    }
  }

  // For runs of any sizes: the sum is the number of frames at every point of the run if and only
  // if no growth exceeds the free frames and no allocation lowers a break.
  lemma ConservedThroughExactly(n: nat, ops: seq<SysOp>, rewrite: bool)
    requires RamOk(n) && FrameOwners.CanRun(Boot(n), ops, rewrite)
    ensures CommittedAllAlong(Boot(n), ops, rewrite, n) <==>
            NeverShort(Boot(n), ops, rewrite) && NeverLowers(Boot(n), ops, rewrite)
  {
    RunCommittedAllAlong(Boot(n), ops, rewrite);
  }
}
