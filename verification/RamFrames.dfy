/** The RAM device's list of free frames (src/mm-memphy.c) and `alloc_pages_range` of src/mm64.c. */
module RamFrames {
  import opened Words
  import opened Memory
  import FrameOwners

  class RamDevice {
    const maxsz: nat
    var freeFp: seq<bv64>
    ghost var lost: seq<bv64>  // frames popped by an allocation that then failed

    constructor (maxsz: nat)
      ensures this.maxsz == maxsz && freeFp == [] && lost == []
    {
      this.maxsz := maxsz;
      freeFp, lost := [], [];
    }

    // `MEMPHY_format`. With exactly one frame the source leaves its list link uninitialised.
    method Format(pagesz: nat) returns (rc: int)
      requires pagesz > 0 && maxsz / pagesz != 1
      modifies this`freeFp
      ensures rc == if maxsz < pagesz then -1 else 0
      ensures freeFp == if rc == 0 then Frames(maxsz / pagesz) else old(freeFp)
    {
      var numfp := maxsz / pagesz;
      if numfp <= 0 {
        return -1;
      }
      var list := [Word(0)];
      var iter := 1;
      assert Frames(0) + [Word(0)] == [Word(0)];
      while iter < numfp
        invariant 1 <= iter <= numfp && list == Frames(iter)
      {
        list := list + [Word(iter)];
        iter := iter + 1;
      }
      freeFp := list;
      return 0;
    }

    method GetFreefp() returns (fpn: Option<bv64>)
      modifies this`freeFp
      ensures if old(freeFp) == [] then fpn == None && freeFp == [] else fpn == Some(old(freeFp)[0]) && freeFp == old(freeFp)[1..]
    {
      if freeFp == [] {
        return None;
      }
      fpn := Some(freeFp[0]);
      freeFp := freeFp[1..];
    }

    method PutFreefp(fpn: bv64)
      modifies this`freeFp
      ensures FrameOwners.Sys([], freeFp, lost) == FrameOwners.Put(FrameOwners.Sys([], old(freeFp), lost), fpn)
    {
      freeFp := [fpn] + freeFp;
    }

    // `alloc_pages_range`: the first frames of the list, newest first, or all of them and nothing.
    method AllocPagesRange(reqPgnum: nat) returns (frames: Option<seq<bv64>>)
      modifies this
      ensures if reqPgnum <= |old(freeFp)|
              then frames == Some(Reversed(old(freeFp)[..reqPgnum])) && freeFp == old(freeFp)[reqPgnum..] && lost == old(lost)
              else frames == None && freeFp == [] && lost == old(lost) + old(freeFp)
    {
      var list := [];
      for i := 0 to reqPgnum
        invariant i <= |old(freeFp)| && lost == old(lost)
        invariant list == Reversed(old(freeFp)[..i]) && freeFp == old(freeFp)[i..]
      {
        var fpn := GetFreefp();
        if fpn.None? {
          while list != []
          {
            list := list[1..];
          }
          lost := lost + old(freeFp);
          return None;
        }
        list := [fpn.value] + list;
      }
      return Some(list);
    }
  }
}
