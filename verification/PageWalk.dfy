/** One process's page tables as src/mm64.c updates them in place, level by level. */
module PageWalk {
  import opened Words
  import opened Pte
  import opened PageTable
  import opened Paging

  /** The system-wide counters. */
  class Stats {
    var accesses: nat  // g_total_accesses
    var storage: nat   // g_total_storage_bytes

    constructor ()
      ensures accesses == 0 && storage == 0
    {
      accesses, storage := 0, 0;
    }
  }

  /** `Built` on the four indices of a path, one level at a time. */
  lemma BuiltLevels(t: Tree, p: Path)
    requires Wf(t)
    ensures var i1, i2, i3, i4 := p.pgd, p.p4d, p.pud, p.pmd;
            var t1 := Grown(t, 0, i1);
            && GrownFrom(t, 0, i1)
            && var x1 := t1.link[(0, i1)]; var t2 := Grown(t1, x1, i2);
            && GrownFrom(t1, x1, i2)
            && var x2 := t2.link[(x1, i2)]; var t3 := Grown(t2, x2, i3);
            && GrownFrom(t2, x2, i3)
            && var x3 := t3.link[(x2, i3)]; var t4 := Grown(t3, x3, i4);
            && GrownFrom(t3, x3, i4)
            && Walked(t, p) == t4 && Follow(t4, 0, Upper(p)) == Some(t4.link[(x3, i4)])
  {
    var path := Upper(p);
    assert path[1..] == [p.p4d, p.pud, p.pmd] && path[2..] == [p.pud, p.pmd] && path[3..] == [p.pmd] && path[4..] == [];
    assert path[1..][1..] == path[2..] && path[2..][1..] == path[3..] && path[3..][1..] == path[4..];
    GrownLevel(t, 0, path);
    var t1 := Grown(t, 0, p.pgd);
    GrownLevel(t1, t1.link[(0, p.pgd)], path[1..]);
    var t2 := Grown(t1, t1.link[(0, p.pgd)], p.p4d);
    GrownLevel(t2, t2.link[(t1.link[(0, p.pgd)], p.p4d)], path[2..]);
    var t3 := Grown(t2, t2.link[(t1.link[(0, p.pgd)], p.p4d)], p.pud);
    GrownLevel(t3, t3.link[(t2.link[(t1.link[(0, p.pgd)], p.p4d)], p.pud)], path[3..]);
  }

  ghost predicate GrownFrom(t: Tree, id: nat, i: bv64) {
    id < |t.tables| && t.tables[id].depth < 4 && (id, i) in Grown(t, id, i).link
  }

  lemma GrownLevel(t: Tree, id: nat, path: seq<bv64>)
    requires Wf(t) && path != [] && id < |t.tables| && t.tables[id].depth + |path| <= 4
    ensures GrownFrom(t, id, path[0]) && Wf(Grown(t, id, path[0]))
    ensures var u := Grown(t, id, path[0]); var x := u.link[(id, path[0])];
            && x < |u.tables| && u.tables[x].depth == t.tables[id].depth + 1
            && Built(t, id, path) == Built(u, x, path[1..])
            && Follow(Built(t, id, path), id, path) == Follow(Built(t, id, path), x, path[1..])
  {
    GrownWf(t, id, path[0]);
    var u := Grown(t, id, path[0]);
    BuiltExtends(u, u.link[(id, path[0])], path[1..]);
  }

  lemma HelperDo(ts: Tables, p: Path)
    requires Wf(ts.tree)
    ensures Do(ts, Helper(p)) == Tables(ts.tree, Flagged(ts.used, p))
  {}

  // Reading and writing through the pointer that a walk returned.
  lemma StoredThrough(t: Tree, p: Path, slot: Slot)
    requires Wf(t) && Follow(Walked(t, p), 0, Upper(p)) == Some(slot.0) && slot.1 == p.pt
    ensures var u := Walked(t, p);
            && slot.0 < |u.tables| && u.tables[slot.0].depth == 4
            && Lookup(t, p) == (if slot in u.entry then u.entry[slot] else 0)
            && forall v :: Stored(t, p, v) == Tree(u.tables, u.link, u.entry[slot := v])
  {
    BuiltExtends(t, 0, Upper(p));
    FollowDepth(Walked(t, p), 0, Upper(p));
    WalkedKeepsEntries(t, p, p);
  }

  class PageTables {
    const stats: Stats
    var tables: seq<Table>
    var link: map<Slot, nat>
    var entry: map<Slot, bv64>
    var used: Used
    var accessCounter: nat
    var byteCounter: nat

    ghost function View(): Tables
      reads this
    {
      Tables(Tree(tables, link, entry), used)
    }

    /** The counter always shows 4096 bytes a table below the PGD and 8 bytes a flag. */
    ghost predicate Valid()
      reads this
    {
      Wf(View().tree) && byteCounter == TABLE_BYTES * (|tables| - 1) + 8 * Flags(used)
    }

    /** The page-table part of `init_mm`. */
    constructor (stats: Stats)
      modifies stats
      ensures Valid() && View() == NEW_TABLES && this.stats == stats && accessCounter == 0
      ensures stats.storage == old(stats.storage) + TABLE_BYTES && stats.accesses == old(stats.accesses)
    {
      this.stats := stats;
      tables, link, entry := [Table(0, (0, 0))], map[], map[];
      used := UNUSED;
      accessCounter, byteCounter := 0, 0;
      new;
      stats.storage := stats.storage + TABLE_BYTES;
    }

    // One level of the walk: follow the word, allocating a zeroed table behind it if it is 0.
    method NextTable(id: nat, i: bv64) returns (next: nat)
      requires Valid() && id < |tables| && tables[id].depth < 4
      modifies this, stats
      ensures Valid() && View().tree == Grown(old(View()).tree, id, i) && used == old(used)
      ensures (id, i) in link && next == link[(id, i)]
      ensures stats.storage == old(stats.storage) + TABLE_BYTES * (|tables| - |old(tables)|)
      ensures accessCounter == old(accessCounter) && stats.accesses == old(stats.accesses)
    {
      GrownWf(View().tree, id, i);
      if (id, i) !in link {
        link := link[(id, i) := |tables|];
        tables := tables + [Table(tables[id].depth + 1, (id, i))];
        byteCounter := byteCounter + TABLE_BYTES;
        stats.storage := stats.storage + TABLE_BYTES;
      }
      next := link[(id, i)];
    }

    method PteTravelling(addr: bv64) returns (slot: Slot)
      requires Valid()
      modifies this, stats
      ensures Valid() && View() == old(View()).(tree := Walked(old(View()).tree, PdFromAddress(addr)))
      ensures Follow(View().tree, 0, Upper(PdFromAddress(addr))) == Some(slot.0) && slot.1 == PdFromAddress(addr).pt
      ensures stats.storage == old(stats.storage) + TABLE_BYTES * (|tables| - |old(tables)|)
      ensures accessCounter == old(accessCounter) + 5 && stats.accesses == old(stats.accesses) + 5
    {
      var p := PdFromAddress(addr);
      BuiltLevels(View().tree, p);
      accessCounter := accessCounter + 5;
      stats.accesses := stats.accesses + 5;
      var p4d := NextTable(0, p.pgd);
      var pud := NextTable(p4d, p.p4d);
      var pmd := NextTable(pud, p.pud);
      var pt := NextTable(pmd, p.pmd);
      slot := (pt, p.pt);
    }

    // `*pte`, and `*pte = v`, for the pointer that the walk returned.
    function Read(slot: Slot): bv64
      reads this
    {
      if slot in entry then entry[slot] else 0
    }

    method Put(slot: Slot, v: bv64)
      requires Valid() && slot.0 < |tables| && tables[slot.0].depth == 4
      modifies this
      ensures Valid() && entry == old(entry)[slot := v]
      ensures tables == old(tables) && link == old(link) && used == old(used)
      ensures accessCounter == old(accessCounter)
    {
      PutWf(View().tree, slot, v);
      entry := entry[slot := v];
    }

    // `pte_set_fpn`: three assignments through the pointer.
    method SetFrame(pgn: bv64, fpn: bv64)
      requires Valid()
      modifies this, stats
      ensures Valid() && View() == Do(old(View()), PteSetFpn(pgn, fpn))
      ensures stats.storage == old(stats.storage) + TABLE_BYTES * (|tables| - |old(tables)|)
      ensures accessCounter == old(accessCounter) + 5 && stats.accesses == old(stats.accesses) + 5
    {
      hide Walked, Lookup, Wf, Follow, SetBit, ClrBit, SetVal, Stored, PdFromAddress, Flags;
      var slot := PteTravelling(pgn << 12);
      StoredThrough(old(View()).tree, PdFromPagenum(pgn), slot);
      Put(slot, SetBit(Read(slot), PRESENT_MASK));
      Put(slot, ClrBit(Read(slot), SWAPPED_MASK));
      Put(slot, SetVal(Read(slot), fpn, FPN_MASK, 0));
    }

    // `pte_set_swap`.
    method SetSwapped(pgn: bv64, typ: bv64, off: bv64)
      requires Valid()
      modifies this, stats
      ensures Valid() && View() == Do(old(View()), PteSetSwap(pgn, typ, off))
      ensures stats.storage == old(stats.storage) + TABLE_BYTES * (|tables| - |old(tables)|)
      ensures accessCounter == old(accessCounter) + 5 && stats.accesses == old(stats.accesses) + 5
    {
      hide Walked, Lookup, Wf, Follow, SetBit, ClrBit, SetVal, Stored, PdFromAddress, Flags;
      var slot := PteTravelling(pgn << 12);
      StoredThrough(old(View()).tree, PdFromPagenum(pgn), slot);
      MarkSwapped(slot);
      SetSwapFields(slot, typ, off);
    }

    // The two SETVALs of `pte_set_swap`.
    method SetSwapFields(slot: Slot, typ: bv64, off: bv64)
      requires Valid() && slot.0 < |tables| && tables[slot.0].depth == 4
      modifies this
      ensures Valid() && entry == old(entry)[slot := SetVal(SetVal(old(Read(slot)), typ, SWPTYP_MASK, 0), off, SWPOFF_MASK, 5)]
      ensures tables == old(tables) && link == old(link) && used == old(used)
      ensures accessCounter == old(accessCounter)
    {
      hide Wf, SetVal, Flags;
      Put(slot, SetVal(Read(slot), typ, SWPTYP_MASK, 0));
      Put(slot, SetVal(Read(slot), off, SWPOFF_MASK, 5));
    }

    // The two SETBITs of `pte_set_swap`.
    method MarkSwapped(slot: Slot)
      requires Valid() && slot.0 < |tables| && tables[slot.0].depth == 4
      modifies this
      ensures Valid() && entry == old(entry)[slot := SetBit(SetBit(old(Read(slot)), PRESENT_MASK), SWAPPED_MASK)]
      ensures tables == old(tables) && link == old(link) && used == old(used)
      ensures accessCounter == old(accessCounter)
    {
      hide Wf, SetBit, Flags;
      Put(slot, SetBit(Read(slot), PRESENT_MASK));
      Put(slot, SetBit(Read(slot), SWAPPED_MASK));
    }

    // `pte_set_entry`; the argument is a uint32_t.
    method SetWhole(pgn: bv64, val: bv64)
      requires Valid()
      modifies this, stats
      ensures Valid() && View() == Do(old(View()), PteSetEntry(pgn, val))
      ensures stats.storage == old(stats.storage) + TABLE_BYTES * (|tables| - |old(tables)|)
      ensures accessCounter == old(accessCounter) + 5 && stats.accesses == old(stats.accesses) + 5
    {
      hide Walked, Lookup, Wf, Follow, Stored, PdFromAddress, Flags;
      var slot := PteTravelling(pgn << 12);
      StoredThrough(old(View()).tree, PdFromPagenum(pgn), slot);
      Put(slot, val & LOW32);
    }

    // `pte_get_entry`: a read that may allocate tables.
    method GetEntry(pgn: bv64) returns (pte: bv64)
      requires Valid()
      modifies this, stats
      ensures Valid() && View() == Do(old(View()), Fetch(PdFromPagenum(pgn)))
      ensures pte == Lookup(old(View()).tree, PdFromPagenum(pgn)) & LOW32
      ensures stats.storage == old(stats.storage) + TABLE_BYTES * (|tables| - |old(tables)|)
      ensures accessCounter == old(accessCounter) + 5 && stats.accesses == old(stats.accesses) + 5
    {
      hide Walked, Lookup, Wf, Follow, Stored, PdFromAddress, Flags;
      var slot := PteTravelling(pgn << 12);
      StoredThrough(old(View()).tree, PdFromPagenum(pgn), slot);
      pte := Read(slot) & LOW32;
    }

    // One of the five tests of `MultiLevelHelper`: set a flag that is not set and count its bytes.
    method Flag(flags: set<bv64>, i: bv64) returns (r: set<bv64>)
      modifies this`byteCounter
      ensures r == flags + {i} && byteCounter == old(byteCounter) + 8 * (|r| - |flags|)
    {
      r := flags;
      if i !in flags {
        r := flags + {i};
        byteCounter := byteCounter + 8;
      } else {
        assert flags + {i} == flags;
      }
    }

    // `MultiLevelHelper`: flag the five indices of a page.
    method CountLevels(pgn: bv64)
      requires Valid()
      modifies this
      ensures Valid() && View() == Do(old(View()), Helper(PdFromPagenum(pgn)))
      ensures accessCounter == old(accessCounter) + 5 && tables == old(tables)
    {
      hide Wf, PdFromAddress, PdFromPagenum, Do;
      var p := PdFromPagenum(pgn);
      HelperDo(View(), p);
      var pgd := Flag(used.pgd, p.pgd);
      var p4d := Flag(used.p4d, p.p4d);
      var pud := Flag(used.pud, p.pud);
      var pmd := Flag(used.pmd, p.pmd);
      var pt := Flag(used.pt, p.pt);
      used := Used(pgd, p4d, pud, pmd, pt);
      accessCounter := accessCounter + 5;
    }
  }
}
