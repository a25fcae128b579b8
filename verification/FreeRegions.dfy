/** The free region list updated in place: the list walks of src/libmem.c. */
module FreeRegions {
  import opened Words
  import opened FreeList
  import opened UserHeap

  lemma PositionIs(l: seq<Region>, r: Region, p: nat)
    requires p <= |l| && (forall i :: 0 <= i < p ==> l[i].start < r.start) && (p < |l| ==> l[p].start >= r.start)
    ensures Position(l, r) == p
  {}

  lemma FitIndexIs(l: seq<Region>, size: int, i: nat)
    requires i <= |l| && (forall j :: 0 <= j < i ==> !Fits(l[j], size)) && (i < |l| ==> Fits(l[i], size))
    ensures FitIndex(l, size) == i
  {}

  // What one round of the coalescing loop does to the list behind the current node.
  lemma CoalesceRound(l: seq<Region>, k: nat)
    requires k + 1 < |l|
    ensures l[k].end == l[k + 1].start ==>
              Coalesced(l[k..]) == Coalesced(([Region(l[k].start, l[k + 1].end)] + l[k + 2..]))
    ensures l[k].end != l[k + 1].start ==> Coalesced(l[k..]) == [l[k]] + Coalesced(l[k + 1..])
  {
    assert l[k..][2..] == l[k + 2..] && l[k..][1..] == l[k + 1..];
  }

  lemma CoalescedShort(l: seq<Region>)
    requires |l| < 2
    ensures Coalesced(l) == l
  {}

  class VmArea {
    var freeRg: seq<Region>
    var sbrk: nat

    constructor ()
      ensures freeRg == [] && sbrk == 0
    {
      freeRg, sbrk := [], 0;
    }

    // Merge the current node with its successor as long as they touch, then move on.
    method CoalesceFreergList()
      modifies this`freeRg
      ensures freeRg == Coalesced(old(freeRg))
    {
      hide Coalesced;
      var curr := 0;
      assert freeRg[0..] == freeRg;
      while curr + 1 < |freeRg|
        invariant curr == 0 || curr < |freeRg|
        invariant freeRg[..curr] + Coalesced(freeRg[curr..]) == Coalesced(old(freeRg))
        decreases |freeRg| - curr
      {
        CoalesceRound(freeRg, curr);
        if freeRg[curr].end == freeRg[curr + 1].start {
          var merged := Region(freeRg[curr].start, freeRg[curr + 1].end);
          ghost var rest := [merged] + freeRg[curr + 2..];
          freeRg := freeRg[..curr] + [merged] + freeRg[curr + 2..];
          assert freeRg[curr..] == rest;
        } else {
          assert freeRg[..curr + 1] == freeRg[..curr] + [freeRg[curr]];
          curr := curr + 1;
        }
      }
      CoalescedShort(freeRg[curr..]);
    }

    method InsertSortedFreerg(newrg: Region)
      modifies this`freeRg
      ensures freeRg == Inserted(old(freeRg), newrg)
    {
      var curr := 0;
      while curr < |freeRg| && freeRg[curr].start < newrg.start
        invariant 0 <= curr <= |freeRg|
        invariant forall i :: 0 <= i < curr ==> freeRg[i].start < newrg.start
      {
        curr := curr + 1;
      }
      PositionIs(freeRg, newrg, curr);
      freeRg := freeRg[..curr] + [newrg] + freeRg[curr..];
    }

    method EnlistVmFreergList(rg: Region) returns (rc: int)
      modifies this`freeRg
      ensures freeRg == Enlisted(old(freeRg), rg)
      ensures rc == if Empty(rg) then -1 else 0
    {
      if rg.start >= rg.end {
        return -1;
      }
      InsertSortedFreerg(rg);
      CoalesceFreergList();
      return 0;
    }

    // First fit; the chosen node is shortened, overwritten by its successor, or left empty.
    method GetFreeVmrgArea(size: int) returns (start: Option<nat>)
      modifies this`freeRg
      ensures var l := old(freeRg);
              var i := FitIndex(l, size);
              if i < |l| then start == Some(l[i].start) && freeRg == Taken(l, i, size) else start == None && freeRg == l
    {
      var i := 0;
      while i < |freeRg|
        invariant 0 <= i <= |freeRg| && freeRg == old(freeRg)
        invariant forall j :: 0 <= j < i ==> !Fits(freeRg[j], size)
      {
        var rg := freeRg[i];
        if 0 <= rg.start + size <= rg.end {
          FitIndexIs(freeRg, size, i);
          if rg.start + size < rg.end {
            freeRg := freeRg[i := Region(rg.start + size, rg.end)];
          } else if i + 1 < |freeRg| {
            freeRg := freeRg[i := freeRg[i + 1]];
            freeRg := freeRg[..i + 1] + freeRg[i + 2..];
          } else {
            freeRg := freeRg[i := Region(rg.end, rg.end)];
          }
          return Some(rg.start);
        }
        i := i + 1;
      }
      FitIndexIs(freeRg, size, i);
      return None;
    }

    // The bookkeeping of `inc_vma_limit` after the pages are mapped: the head of a non-empty list
    // becomes everything above the break.
    method RewriteHead()
      modifies this`freeRg
      ensures freeRg == if old(freeRg) == [] then [] else old(freeRg)[0 := Region(sbrk, VM_END)]
    {
      if freeRg != [] {
        freeRg := freeRg[0 := Region(sbrk, VM_END)];
      }
    }
  }

  predicate Overlap(x: Region, y: Region) { x.start < y.end && y.start < x.end }

  // The macro means what its name says: two non-empty areas share a byte.
  lemma OverlapSharesByte(x: Region, y: Region)
    requires !Empty(x) && !Empty(y)
    ensures Overlap(x, y) <==> exists b :: Holds(x, b) == 1 && Holds(y, b) == 1
  {
    if Overlap(x, y) {
      var b := if x.start < y.start then y.start else x.start;
      assert Holds(x, b) == 1 && Holds(y, b) == 1;
    }
  }

  // `validate_overlap_vm_area` on the list of areas, of which number `cur`, if there is one, is
  // the caller's own.
  method ValidateOverlap(areas: seq<Region>, cur: nat, planned: Region) returns (rc: int)
    ensures rc == 0 || rc == -1
    ensures rc == 0 <==> !Empty(planned) && cur < |areas| && forall i :: 0 <= i < |areas| && i != cur ==> !Overlap(planned, areas[i])
  {
    if planned.start >= planned.end {
      return -1;
    }
    if areas == [] || cur >= |areas| {
      return -1;
    }
    for vma := 0 to |areas|
      invariant forall i :: 0 <= i < vma && i != cur ==> !Overlap(planned, areas[i])
    {
      if vma != cur && Overlap(planned, areas[vma]) {
        return -1;
      }
    }
    return 0;
  }
}
