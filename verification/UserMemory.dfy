/**
 * One process's `mm_struct` updated in place: `__alloc`, `__free`, `inc_vma_limit`, `vm_map_ram`,
 * `vmap_page_range` and `find_victim_page`, as the code is written (the list head is rewritten).
 */
module UserMemory {
  import opened Words
  import opened PageTable
  import opened Paging
  import opened PageWalk
  import opened FreeList
  import opened FreeRegions
  import opened UserHeap
  import opened Memory
  import opened RamFrames
  import opened FrameOwners

  /** The pages taken out by `find_victim_page` called k times. */
  function Victims(fifo: seq<bv64>, k: nat): seq<bv64>
    requires k <= |fifo|
  {
    if k == 0 then [] else [fifo[|fifo| - 1]] + Victims(fifo[..|fifo| - 1], k - 1)
  }

  // Victims leave in the order in which the pages were enlisted.
  lemma {:induction false} OldestFirst(fifo: seq<bv64>, k: nat)
    requires k <= |fifo|
    ensures Victims(fifo, k) == Reversed(fifo)[..k]
  {
    if k == 0 {
    } else {
      OldestFirst(fifo[..|fifo| - 1], k - 1);
      assert Reversed(fifo) == [fifo[|fifo| - 1]] + Reversed(fifo[..|fifo| - 1]);
    }
  }

  /** A process with its share of the RAM device, as a system of one process. */
  function Alone(s: Space, free: seq<bv64>, lost: seq<bv64>): Sys { Sys([s], free, lost) }

  // Only the break decides what is mapped; the rest of the heap is just carried along.
  lemma SupplyCarries(sys: Sys, h: Heap, g: Heap)
    requires |sys.spaces| == 1 && Wf(sys.spaces[0].tables.tree) && h.sbrk == g.sbrk
    ensures var a, b := Supply(sys, 0, h), Supply(sys, 0, g);
            |a.spaces| == 1 && a.spaces[0].heap == h && b == a.(spaces := [a.spaces[0].(heap := g)])
  {
    hide Mapped, Wf;
  }

  // What a process does alone it does among the others, which keep their spaces.
  lemma AloneAmongOthers(sys: Sys, p: nat, h: Heap)
    requires p < |sys.spaces| && Wf(sys.spaces[p].tables.tree)
    ensures var a := Supply(Alone(sys.spaces[p], sys.free, sys.lost), 0, h);
            |a.spaces| == 1 && Supply(sys, p, h) == Sys(sys.spaces[p := a.spaces[0]], a.free, a.lost)
  {
    hide Mapped, Wf;
  }

  // A break that does not move up maps nothing.
  lemma SupplyDown(sys: Sys, h: Heap)
    requires |sys.spaces| == 1 && Wf(sys.spaces[0].tables.tree) && h.sbrk <= sys.spaces[0].heap.sbrk
    ensures Supply(sys, 0, h) == sys.(spaces := [sys.spaces[0].(heap := h)])
  {
    var s := sys.spaces[0];
    assert sys.free[..0] == [] && sys.free[0..] == sys.free && Reversed(sys.free[..0]) == [];
    assert PageRange(Pages(s), 0) == [] && Reversed(PageRange(Pages(s), 0)) + s.fifo == s.fifo;
    assert FrameOwners.Grown(s, h, []) == s.(heap := h);
    assert sys.lost + [] == sys.lost && sys.spaces[0 := s.(heap := h)] == [s.(heap := h)];
  }

  lemma SupplyNothing(sys: Sys)
    requires |sys.spaces| == 1 && Wf(sys.spaces[0].tables.tree)
    ensures Supply(sys, 0, sys.spaces[0].heap) == sys
  {
    SupplyDown(sys, sys.spaces[0].heap);
    assert sys.spaces == [sys.spaces[0]];
  }

  // The increment is a whole number of pages that an int holds.
  lemma IncrementPages(incSz: nat)
    requires incSz < ADDRS
    ensures IncAmt(incSz) <= MAX_INT && IncAmt(incSz) == IncAmt(incSz) / PAGE * PAGE
  {
    AlignFacts(incSz);
    IntOfPages(Align(incSz));
  }

  lemma IntOfPages(n: nat)
    requires n % PAGE == 0
    ensures IntOf(n) <= MAX_INT && IntOf(n) % PAGE == 0
  {}

  // How `inc_vma_limit` takes the aligned size of an allocation that passed the test.
  lemma IncrementCases(h: Heap, size: nat)
    requires BreakOk(h) && size < ADDRS && (h.sbrk + size <= VM_END || h.sbrk + size >= ADDRS)
    ensures var g, brk := GrowBreak(h, Align(size), true), Wrap(h.sbrk + Align(size));
            if IncAmt(Align(size)) > 0 then g.sbrk == brk else g == h && brk <= h.sbrk
  {
    AlignFacts(size);
    if h.sbrk + size >= ADDRS {
      WrappedIncrement(h, size);
    } else if size > 0 {
      GrowBreakBy(h, size, true);
    }
    hide Align, IntOf;
  }

  // A wrapped sum makes an increment that is negative or 0, which `inc_vma_limit` rejects.
  lemma WrappedIncrement(h: Heap, size: nat)
    requires BreakOk(h) && size < ADDRS <= h.sbrk + size
    ensures GrowBreak(h, Align(size), true) == h && IncAmt(Align(size)) <= 0 && Wrap(h.sbrk + Align(size)) <= h.sbrk
  {
    AlignFacts(size);
    hide Align, Wrap, IntOf;
  }

  class AddressSpace {
    const pages: PageTables
    const ram: RamDevice
    const vma: VmArea
    const sym: array<Region>
    var fifo: seq<bv64>
    ghost var lostRg: seq<Region>

    ghost predicate Valid()
      reads this, pages
    {
      sym.Length == SYMBOLS && pages.Valid()
    }

    ghost function HeapView(): Heap
      reads this, vma, sym
    {
      Heap(sym[..], vma.freeRg, lostRg, vma.sbrk)
    }

    ghost function View(): Space
      reads this, pages, vma, sym
    {
      Space(HeapView(), pages.View(), fifo)
    }

    /** The process together with the frames of the device. */
    ghost function Whole(): Sys
      reads this, pages, vma, sym, ram
    {
      Alone(View(), ram.freeFp, ram.lost)
    }

    /** `init_mm`. */
    constructor (ram: RamDevice, stats: Stats)
      modifies stats
      ensures Valid() && View() == NewSpace() && this.ram == ram && pages.stats == stats
      ensures stats.storage == old(stats.storage) + TABLE_BYTES
    {
      this.ram := ram;
      pages := new PageTables(stats);
      vma := new VmArea();
      var table := new Region[SYMBOLS];
      for i := 0 to SYMBOLS
        invariant forall k :: 0 <= k < i ==> table[k] == NO_REGION
        modifies table
      {
        table[i] := NO_REGION;
      }
      assert table[..] == Blank(SYMBOLS) by {
        assert forall k :: 0 <= k < SYMBOLS ==> Blank(SYMBOLS)[k] in Blank(SYMBOLS);
      }
      sym := table;
      fifo := [];
      lostRg := [];
    }

    // `vmap_page_range`: map consecutive pages to the frames of a list, tracking each page.
    method VmapPageRange(addr: nat, pgnum: nat, frames: seq<bv64>) returns (ret: Region)
      requires Valid()
      modifies this`fifo, pages, pages.stats
      ensures Valid() && ret == Region(addr, addr + pgnum * FRAME_BYTES)
      ensures var n := if pgnum <= |frames| then pgnum else |frames|;
              && pages.View() == Mapped(old(pages.View()), addr / PAGE, frames[..n])
              && fifo == Reversed(PageRange(addr / PAGE, n)) + old(fifo)
    {
      hide Mapped, MapFirst, Wf, PageRange, Reversed, Flags, Next, Words.Word;
      ret := Region(addr, addr + pgnum * FRAME_BYTES);
      var base := addr / PAGE;
      var pgn, i := Word(base), 0;
      ghost var n := if pgnum <= |frames| then pgnum else |frames|;
      ghost var start, fifo0 := pages.View(), fifo;
      assert frames[0..n] == frames[..n];
      NoPages(base, fifo);
      while i < pgnum && i < |frames|
        invariant i <= n && pgn == Word(base + i)
        invariant Valid() && Wf(start.tree)
        invariant Mapped(pages.View(), base + i, frames[i..n]) == Mapped(start, base, frames[..n])
        invariant fifo == Reversed(PageRange(base, i)) + fifo0
        decreases pgnum - i
      {
        MapRound(pages.View(), base + i, frames, i, n);
        FifoRound(base, i, fifo0);
        NextPage(base + i);
        MapPage(base + i, pgn, frames[i]);
        pgn := Next(pgn);
        i := i + 1;
      }
      NothingToMap(pages.View(), base + n, frames[n..n]);
    }

    // `vm_map_ram`; true is a return of 0. The caller's area always passes the first test, and
    // its node receives the mapped region.
    method VmMapRam(area: Region, mapstart: nat, incpgnum: int) returns (ok: bool, ret: Region)
      requires Valid()
      modifies this`fifo, pages, pages.stats, ram
      ensures Valid() && (ok ==> incpgnum > 0)
      ensures ret == if ok then Region(mapstart, mapstart + incpgnum * FRAME_BYTES) else area
      ensures var bad := Empty(area) || incpgnum <= 0 || mapstart < area.start || mapstart + incpgnum * FRAME_BYTES > area.end;
              if bad then
                !ok && pages.View() == old(pages.View()) && fifo == old(fifo) && ram.freeFp == old(ram.freeFp) && ram.lost == old(ram.lost)
              else if incpgnum <= |old(ram.freeFp)| then
                && ok && ram.freeFp == old(ram.freeFp)[incpgnum..]
                && ram.lost == old(ram.lost) + Overwritten(old(pages.View()).tree, mapstart / PAGE, incpgnum)
                && pages.View() == Mapped(old(pages.View()), mapstart / PAGE, Reversed(old(ram.freeFp)[..incpgnum])[..incpgnum])
                && fifo == Reversed(PageRange(mapstart / PAGE, incpgnum)) + old(fifo)
              else
                && !ok && ram.freeFp == [] && ram.lost == old(ram.lost) + old(ram.freeFp)
                && pages.View() == old(pages.View()) && fifo == old(fifo)
    {
      hide Mapped, Wf, Flags, PageRange, Overwritten;
      if area.start >= area.end || incpgnum <= 0 || mapstart < area.start || mapstart + incpgnum * FRAME_BYTES > area.end {
        return false, area;
      }
      var frmLst := ram.AllocPagesRange(incpgnum);
      if frmLst.None? {
        return false, area;
      }
      ram.lost := ram.lost + Overwritten(pages.View().tree, mapstart / PAGE, incpgnum);
      ret := VmapPageRange(mapstart, incpgnum, frmLst.value);
      return true, ret;
    }

    // `inc_vma_limit` for a break that an int holds. The result of `vm_map_ram` is unsigned there
    // and never below 0, so a failure to map is not noticed: the break moves all the same.
    method IncVmaLimit(incSz: nat) returns (rc: int)
      requires Valid() && incSz < ADDRS && vma.sbrk <= MAX_INT
      modifies this`fifo, pages, pages.stats, ram, vma
      ensures Valid() && rc == if old(vma.sbrk) >= Wrap(old(vma.sbrk) + IncAmt(incSz)) then -1 else 0
      ensures var h := GrowBreak(old(HeapView()), incSz, true);
              Whole() == if IncAmt(incSz) > 0 then Supply(old(Whole()), 0, h)
                         else Alone(old(View()).(heap := h), old(ram.freeFp), old(ram.lost))
    {
      hide Mapped, Wf, Flags, PageRange, Reversed, Supply, Overwritten, Wrap, Align, IntOf;
      ghost var before, h := Whole(), GrowBreak(HeapView(), incSz, true);
      IncrementPages(incSz);
      var incAmt := IncAmt(incSz);
      var incnumpage := incAmt / PAGE;
      var area := Region(vma.sbrk, Wrap(vma.sbrk + incAmt));
      rc := CheckArea(area);
      if rc < 0 {
        return -1;
      }
      var oldSbrk := vma.sbrk;
      vma.sbrk := area.end;
      if incAmt > 0 {
        SupplyPages(before, h, incnumpage);
      }
      var _, _ := VmMapRam(area, oldSbrk, incnumpage);
      vma.RewriteHead();
      return 0;
    }

    // The overlap test of `inc_vma_limit`; area 0 is the only one.
    method CheckArea(area: Region) returns (rc: int)
      ensures rc == if Empty(area) then -1 else 0
    {
      rc := ValidateOverlap([Region(0, VM_END)], 0, area);
    }

    // `__alloc`; `listed` says whether the system call finds the process among the running ones.
    method Alloc(rgid: nat, size: nat, listed: bool) returns (addr: Option<nat>)
      requires Valid() && BreakOk(HeapView()) && rgid < SYMBOLS && size < ADDRS
      modifies this, pages, pages.stats, ram, vma, sym
      ensures Valid() && BreakOk(HeapView())
      ensures var a := UserHeap.Alloc(old(HeapView()), rgid, size, listed, true);
              addr == a.1 && Whole() == Supply(old(Whole()), 0, a.0)
    {
      hide Mapped, Wf, Flags, PageRange, Reversed, Supply, Enlisted, Taken, IntOf, FitIndex, Wrap, Align;
      ghost var before, h := Whole(), HeapView();
      AllocBreak(h, rgid, size, listed, true);
      var start := vma.GetFreeVmrgArea(IntOf(size));
      if start.Some? {
        Rebind(rgid, Region(start.value, Wrap(start.value + size)));
        SupplyDown(before, HeapView());
        return start;
      }
      if Wrap(vma.sbrk + size) > VM_END || !listed {
        SupplyNothing(before);
        return None;
      }
      NoFit(h, rgid, size, listed, true);
      hide UserHeap.Alloc, Lowers, Grows;
      addr := Some(vma.sbrk);
      AllocAtEnd(rgid, size);
    }

    // The rest of `__alloc`, when no node was found and the test against vm_end was passed.
    method AllocAtEnd(rgid: nat, size: nat)
      requires Valid() && BreakOk(HeapView()) && rgid < SYMBOLS && size < ADDRS
      requires vma.sbrk + size <= VM_END || vma.sbrk + size >= ADDRS
      modifies this, pages, pages.stats, ram, vma, sym
      ensures Valid() && HeapView() == AllocAtBreak(old(HeapView()), rgid, size, true)
      ensures Whole() == Supply(old(Whole()), 0, HeapView())
    {
      hide Mapped, Wf, Flags, PageRange, Reversed, Supply, Enlisted, IntOf, Wrap, Align;
      ghost var before, h := Whole(), HeapView();
      var incSz := Align(size);
      var oldSbrk := vma.sbrk;
      AlignFacts(size);
      IncrementCases(h, size);
      var _ := IncVmaLimit(incSz);
      ghost var grown := GrowBreak(h, incSz, true);
      if IncAmt(incSz) > 0 {
        SupplyCarries(before, grown, grown);
      }
      BindAndFree(rgid, size, oldSbrk, incSz);
      if IncAmt(incSz) > 0 {
        SupplyCarries(before, grown, HeapView());
      } else {
        SupplyDown(before, HeapView());
      }
    }

    // The new region, the new break, and the rest of the last page.
    method BindAndFree(rgid: nat, size: nat, oldSbrk: nat, incSz: nat)
      requires Valid() && rgid < SYMBOLS
      modifies this`lostRg, sym, vma
      ensures Valid()
      ensures var g := Bind(old(HeapView()), rgid, Region(oldSbrk, Wrap(oldSbrk + size))).(sbrk := Wrap(oldSbrk + incSz));
              HeapView() == if size < incSz then g.(free := Enlisted(g.free, Region(Wrap(oldSbrk + size), g.sbrk))) else g
    {
      hide Wf, Flags, Enlisted, Wrap;
      Rebind(rgid, Region(oldSbrk, Wrap(oldSbrk + size)));
      vma.sbrk := Wrap(oldSbrk + incSz);
      if size < incSz {
        var _ := vma.EnlistVmFreergList(Region(Wrap(oldSbrk + size), Wrap(oldSbrk + incSz)));
      }
    }

    // The assignment to the symbol table.
    method Rebind(rgid: nat, r: Region)
      requires Valid() && rgid < SYMBOLS
      modifies this`lostRg, sym
      ensures Valid() && HeapView() == Bind(old(HeapView()), rgid, r)
    {
      lostRg := lostRg + [sym[rgid]];
      sym[rgid] := r;
    }

    // `__free`, which for rgid = 30 would follow a null pointer.
    method Free(rgid: int) returns (rc: int)
      requires Valid() && rgid != SYMBOLS
      modifies vma, sym
      ensures Valid() && vma.sbrk == old(vma.sbrk)
      ensures var f := Release(old(HeapView()), rgid);
              && rc == (if f.1 then 0 else -1)
              && HeapView() == f.0 && Whole() == Supply(old(Whole()), 0, f.0)
    {
      hide Enlisted, Wf, Flags, Supply;
      SupplyNothing(Whole());
      SupplyCarries(Whole(), HeapView(), Release(HeapView(), rgid).0);
      if rgid < 0 || rgid > SYMBOLS {
        return -1;
      }
      var rg := sym[rgid];
      if rg.start == 0 && rg.end == 0 {
        return -1;
      }
      sym[rgid] := NO_REGION;
      var _ := vma.EnlistVmFreergList(rg);
      return 0;
    }

    // `find_victim_page`: unlink the last node of the page list.
    method FindVictimPage() returns (pgn: Option<bv64>)
      modifies this`fifo
      ensures if old(fifo) == [] then pgn == None && fifo == []
              else pgn == Some(Victims(old(fifo), 1)[0]) && fifo == old(fifo)[..|old(fifo)| - 1]
    {
      if fifo == [] {
        return None;
      }
      var pg := 0;
      while pg + 1 < |fifo|
        invariant pg < |fifo| && fifo == old(fifo)
      {
        pg := pg + 1;
      }
      pgn := Some(fifo[pg]);
      fifo := fifo[..pg];
    }

    // The body of the loop of `vmap_page_range`: set the entry, count its indices, track the page.
    method MapPage(ghost n: nat, pgn: bv64, fpn: bv64)
      requires Valid() && pgn == Words.Word(n)
      modifies this`fifo, pages, pages.stats
      ensures Valid() && pages.View() == MapFirst(old(pages.View()), n, fpn)
      ensures fifo == [Words.Word(n)] + old(fifo)
    {
      hide Do, Wf, Flags, Words.Word;
      pages.SetFrame(pgn, fpn);
      pages.CountLevels(pgn);
      fifo := EnlistPgnNode(fifo, pgn);
    }
  }

  // The break moves over n whole pages, which get the first n frames, newest first.
  lemma SupplyPages(sys: Sys, h: Heap, n: nat)
    requires |sys.spaces| == 1 && Wf(sys.spaces[0].tables.tree) && n > 0 && h.sbrk == sys.spaces[0].heap.sbrk + n * PAGE
    ensures var s, t := sys.spaces[0], Supply(sys, 0, h);
            && |t.spaces| == 1 && t.spaces[0].heap == h
            && if n <= |sys.free| then
                 var frames := Reversed(sys.free[..n]);
                 && t.spaces[0].tables == Mapped(s.tables, s.heap.sbrk / PAGE, frames[..n])
                 && t.spaces[0].fifo == Reversed(PageRange(s.heap.sbrk / PAGE, n)) + s.fifo
                 && t.free == sys.free[n..] && t.lost == sys.lost + Overwritten(s.tables.tree, s.heap.sbrk / PAGE, n)
               else t.spaces[0].tables == s.tables && t.spaces[0].fifo == s.fifo && t.free == [] && t.lost == sys.lost + sys.free
  {
    var s := sys.spaces[0];
    assert (h.sbrk - s.heap.sbrk) / PAGE == n;
    assert Needed(s, h) == n;
    if n <= |sys.free| {
      var frames := Reversed(sys.free[..n]);
      assert frames[..n] == frames;
    }
  }

  function Next(pgn: bv64): bv64 { pgn + 1 }

  lemma NextPage(n: nat)
    ensures Next(Word(n)) == Word(n + 1)
  {
    WordSucc(n);
  }

  lemma NoPages(base: nat, fifo: seq<bv64>)
    ensures Reversed(PageRange(base, 0)) + fifo == fifo
  {}

  lemma FifoRound(base: nat, i: nat, fifo: seq<bv64>)
    ensures Reversed(PageRange(base, i + 1)) + fifo == [Word(base + i)] + (Reversed(PageRange(base, i)) + fifo)
  {
    assert Reversed(PageRange(base, i + 1)) == [Word(base + i)] + Reversed(PageRange(base, i));
  }

  lemma NothingToMap(ts: Tables, base: nat, frames: seq<bv64>)
    requires Wf(ts.tree) && frames == []
    ensures Mapped(ts, base, frames) == ts
  {}

  // `enlist_pgn_node`.
  function EnlistPgnNode(list: seq<bv64>, pgn: bv64): seq<bv64> { [pgn] + list }

  lemma MapRound(ts: Tables, base: nat, frames: seq<bv64>, i: nat, n: nat)
    requires Wf(ts.tree) && i < n <= |frames|
    ensures Mapped(ts, base, frames[i..n]) == Mapped(MapFirst(ts, base, frames[i]), base + 1, frames[i + 1..n])
  {
    assert frames[i..n][1..] == frames[i + 1..n] && frames[i..n][0] == frames[i];
  }
}
