/**
 * Physical frames and the address spaces of all processes: src/mm-memphy.c's free frame list,
 * `alloc_pages_range` and `vmap_page_range` of src/mm64.c, and the allocator on top of them.
 */
module Memory {
  import opened Words
  import opened Pte
  import opened PageTable
  import opened Paging

  const PAGES: nat := 512          // PAGING64_MAX_PGN
  const FRAME_BYTES: nat := 256    // PAGING_PAGESZ, the unit MEMPHY_format divides RAM into

  /** The free list that `MEMPHY_format` builds. */
  function Frames(n: nat): (l: seq<bv64>)
    ensures |l| == n && forall i :: 0 <= i < n ==> l[i] == Word(i)
  {
    if n == 0 then [] else Frames(n - 1) + [Word(n - 1)]
  }

  function Reversed<T>(l: seq<T>): (r: seq<T>)
    ensures |r| == |l| && forall i :: 0 <= i < |l| ==> r[i] == l[|l| - 1 - i]
  {
    if l == [] then [] else Reversed(l[1..]) + [l[0]]
  }

  /** How often x occurs in l. */
  function Occurs(l: seq<bv64>, x: bv64): nat {
    if l == [] then 0 else (if l[0] == x then 1 else 0) + Occurs(l[1..], x)
  }

  lemma {:induction false} OccursAppend(a: seq<bv64>, b: seq<bv64>, x: bv64)
    ensures Occurs(a + b, x) == Occurs(a, x) + Occurs(b, x)
  {
    if a == [] {
      assert a + b == b;
    } else {
      assert (a + b)[0] == a[0] && (a + b)[1..] == a[1..] + b;
      OccursAppend(a[1..], b, x);
    }
  }

  lemma {:induction false} OccursReversed(l: seq<bv64>, x: bv64)
    ensures Occurs(Reversed(l), x) == Occurs(l, x)
  {
    if l == [] {
    } else {
      OccursReversed(l[1..], x);
      OccursAppend(Reversed(l[1..]), [l[0]], x);
      assert [l[0]][1..] == [];
    }
  }

  /** The path of page i. */
  function PagePath(i: nat): Path { PdFromPagenum(Word(i)) }

  lemma PagePathInjective(i: nat, j: nat)
    requires i < 8192 && j < 8192
    ensures PagePath(i) == PagePath(j) <==> i == j
  {
    WordBelow8192(i);
    WordBelow8192(j);
    PathInjective(Word(i), Word(j));
    SmallPage(Word(i));
    SmallPage(Word(j));
    if Word(i) == Word(j) {
      WordInjective(i, j);
    }
  }

  lemma SmallPage(w: bv64)
    requires w < 8192
    ensures w & 0x1fff_ffff_ffff == w
  {}

  /** The loop of `vmap_page_range`: map the pages from `base` on, one frame each. */
  function Mapped(ts: Tables, base: nat, frames: seq<bv64>): (r: Tables)
    requires Wf(ts.tree)
    ensures Wf(r.tree)
    decreases |frames|
  {
    if frames == [] then ts
    else Mapped(MapFirst(ts, base, frames[0]), base + 1, frames[1..])
  }

  /** The page numbers base, ..., base + n - 1. */
  function PageRange(base: nat, n: nat): (l: seq<bv64>)
    ensures |l| == n && forall i :: 0 <= i < n ==> l[i] == Word(base + i)
  {
    if n == 0 then [] else PageRange(base, n - 1) + [Word(base + n - 1)]
  }

  lemma MapOne(ts: Tables, base: nat, f: bv64, q: Path)
    requires Wf(ts.tree)
    ensures var u := MapFirst(ts, base, f);
            Lookup(u.tree, q) == if q == PagePath(base) then SetFpn(Lookup(ts.tree, q), f) else Lookup(ts.tree, q)
  {
    var t := Do(ts, PteSetFpn(Word(base), f));
    TreeAfterEntries(ts.tree, PteSetFpn(Word(base), f), q);
    TreeAfterEntries(t.tree, Helper(PagePath(base)), q);
  }

  function MapFirst(ts: Tables, base: nat, f: bv64): (r: Tables)
    requires Wf(ts.tree)
    ensures Wf(r.tree)
  {
    Do(Do(ts, PteSetFpn(Word(base), f)), Helper(PagePath(base)))
  }

  // Mapping a range gives page base + i the i-th frame of the list ...
  lemma {:induction false} MappedPages(ts: Tables, base: nat, frames: seq<bv64>, j: nat)
    requires Wf(ts.tree) && base + |frames| <= 8192 && j < 8192
    ensures Lookup(Mapped(ts, base, frames).tree, PagePath(j)) ==
            if base <= j < base + |frames| then SetFpn(Lookup(ts.tree, PagePath(j)), frames[j - base])
            else Lookup(ts.tree, PagePath(j))
    decreases |frames|
  {
    hide PagePath, SetFpn, Lookup, MapFirst, Wf;
    if frames == [] {
    } else {
      MapOne(ts, base, frames[0], PagePath(j));
      MappedPages(MapFirst(ts, base, frames[0]), base + 1, frames[1..], j);
      PagePathInjective(j, base);
    }
  }

  // ... and changes no other entry, whatever its path.
  lemma {:induction false} MappedOthers(ts: Tables, base: nat, frames: seq<bv64>, q: Path)
    requires Wf(ts.tree) && forall k :: base <= k < base + |frames| ==> q != PagePath(k)
    ensures Lookup(Mapped(ts, base, frames).tree, q) == Lookup(ts.tree, q)
    decreases |frames|
  {
    if frames == [] {
    } else {
      MapOne(ts, base, frames[0], q);
      MappedOthers(MapFirst(ts, base, frames[0]), base + 1, frames[1..], q);
    }
  }

  // Range mapping: with n free frames, page base + i is mapped to the (n-1-i)-th of them, and
  // every entry at any other path stays.
  lemma RangeMapping(ts: Tables, base: nat, free: seq<bv64>, n: nat, i: nat, q: Path)
    requires Wf(ts.tree) && n <= |free| && base + n <= 8192
    requires forall k :: 0 <= k < |free| ==> free[k] < 8192
    ensures var t := Mapped(ts, base, Reversed(free[..n])).tree;
            && (i < n ==> Present(Lookup(t, PagePath(base + i))) && Fpn(Lookup(t, PagePath(base + i))) == free[n - 1 - i])
            && ((forall k :: base <= k < base + n ==> q != PagePath(k)) ==> Lookup(t, q) == Lookup(ts.tree, q))
  {
    hide PagePath, SetFpn, Lookup, Mapped, Wf, Present, Fpn;
    var frames := Reversed(free[..n]);
    if i < n {
      MappedPages(ts, base, frames, base + i);
      var before, f := Lookup(ts.tree, PagePath(base + i)), free[n - 1 - i];
      assert frames[i] == f;
      SetFpnDecodes(before, f);
      FpnRoundTrip(before, f);
    }
    if forall k :: base <= k < base + n ==> q != PagePath(k) {
      MappedOthers(ts, base, frames, q);
    }
  }
}
