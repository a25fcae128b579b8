/** What `__alloc` and `__free` answer, and what they do for a caller, in single calls and in runs. */
module HeapCalls {
  import opened FreeList
  import opened UserHeap

  // ---------- __free ----------

  // A release is refused, and then changes nothing, exactly when the index is outside the table
  // or the entry is (0, 0); otherwise the entry is cleared, its bytes become free, and all else stays.
  lemma ReleaseMeans(h: Heap, rgid: int)
    requires |h.sym| == SYMBOLS && rgid != SYMBOLS
    ensures var (g, ok) := Release(h, rgid);
            && |g.sym| == SYMBOLS
            && (ok <==> 0 <= rgid < SYMBOLS && (h.sym[rgid].start != 0 || h.sym[rgid].end != 0))
            && (!ok ==> g == h)
            && (ok ==>
                  && g.sym[rgid] == Region(0, 0) && g.lost == h.lost && g.sbrk == h.sbrk
                  && (forall i :: 0 <= i < SYMBOLS && i != rgid ==> g.sym[i] == h.sym[i])
                  && (WellFormed(h.free) ==> forall x :: Count(g.free, x) == Count(h.free, x) + Holds(h.sym[rgid], x)))
  {
    hide Enlisted;
    var (g, ok) := Release(h, rgid);
    if ok && WellFormed(h.free) {
      forall x
        ensures Count(g.free, x) == Count(h.free, x) + Holds(h.sym[rgid], x)
      {
        EnlistedCount(h.free, h.sym[rgid], x);
      }
    }
  }

  // Over runs: releasing a register frees exactly the bytes of its live region, which no other
  // live region and no free node held; releasing it again is refused.
  lemma ReleaseInRun(ops: seq<Op>, rewrite: bool, rgid: nat)
    requires AllCallable(ops) && HarmlessThroughout(ops, rewrite) && rgid < SYMBOLS
    ensures AllCallable(ops + [FreeOp(rgid)])
    ensures var h, g := Run(ops, rewrite), Run(ops + [FreeOp(rgid)], rewrite);
            && (forall i :: 0 <= i < SYMBOLS && i != rgid ==> g.sym[i] == h.sym[i])
            && g.sym[rgid] == Region(0, 0) && g.sbrk == h.sbrk
            && (!Empty(h.sym[rgid]) ==> Release(h, rgid).1) && !Release(g, rgid).1
            && forall x :: Holds(g.sym[rgid], x) == 0 && Count(g.free, x) == Count(h.free, x) + Holds(h.sym[rgid], x) <= 1
  {
    var h := Run(ops, rewrite);
    assert Callable(FreeOp(rgid));
    RunAppend(ops, FreeOp(rgid), rewrite);
    RunSoundExactly(ops, rewrite);
    assert Sound(h);
    ReleaseMeans(h, rgid);
    hide Run, AllCallable, Release;
    forall x
      ensures Count(h.free, x) + Holds(h.sym[rgid], x) <= 1
    {
      CountSplit(h.sym, rgid, x);
      assert Owners(h, x) <= 1;
    }
    assert forall x :: h.sym[rgid] == Region(0, 0) ==> Holds(h.sym[rgid], x) == 0;
    ReleaseMeans(Release(h, rgid).0, rgid);
  }

  // ---------- __alloc ----------

  /** A node of the list is long enough for the size as an int. */
  predicate NodeFits(h: Heap, size: nat) { exists i :: 0 <= i < |h.free| && Fits(h.free[i], IntOf(size)) }

  // The answer is the start of the region that the register now has; without an answer nothing
  // has changed. There is one exactly when a node fits, or when the system call finds the caller
  // and the wrapping sum of break and size is within the area.
  lemma AllocMeans(h: Heap, rgid: nat, size: nat, listed: bool, rewrite: bool)
    requires rgid < |h.sym|
    ensures var (g, answer) := Alloc(h, rgid, size, listed, rewrite);
            && |g.sym| == |h.sym|
            && (forall i :: 0 <= i < |h.sym| && i != rgid ==> g.sym[i] == h.sym[i])
            && (answer.Some? <==> NodeFits(h, size) || (listed && Wrap(h.sbrk + size) <= VM_END))
            && (answer.Some? ==> g.sym[rgid] == Region(answer.value, Wrap(answer.value + size)) && g.lost == h.lost + [h.sym[rgid]])
            && (answer.None? ==> g == h)
  {
    hide Taken, Enlisted, Wrap, IntOf, Align;
    var i := FitIndex(h.free, IntOf(size));
    if i < |h.free| {
      assert Fits(h.free[i], IntOf(size));
    }
  }

  /** Byte x was in no live region of h; in g it is in no free node, and live in register rgid alone. */
  ghost predicate NewlyLive(h: Heap, g: Heap, rgid: nat, x: nat) {
    && Count(h.sym, x) == 0 && Count(g.free, x) == 0
    && rgid < |g.sym| && Holds(g.sym[rgid], x) == 1
    && forall i :: 0 <= i < |g.sym| && i != rgid ==> Holds(g.sym[i], x) == 0
  }

  // A harmless call on a sound heap answers the address of `size` bytes of the area that no live
  // region had before and no other live region or free node has afterwards.
  lemma AllocGivesBytes(h: Heap, rgid: nat, size: nat, listed: bool, rewrite: bool)
    requires Sound(h) && rgid < SYMBOLS && size < ADDRS && Harmless(h, size, listed, rewrite)
    ensures var (g, answer) := Alloc(h, rgid, size, listed, rewrite);
            answer.Some? ==>
              var a := answer.value;
              && |g.sym| == SYMBOLS && g.sym[rgid] == Region(a, a + size) && (size > 0 ==> a + size <= g.sbrk)
              && forall x :: a <= x < a + size ==> NewlyLive(h, g, rgid, x)
  {
    var (g, answer) := Alloc(h, rgid, size, listed, rewrite);
    if answer.Some? {
      var a := answer.value;
      AllocMeans(h, rgid, size, listed, rewrite);
      AllocSoundExactly(h, rgid, size, listed, rewrite);
      hide Alloc, Harmless, Wrap, IntOf;
      assert g.sym[rgid] in g.sym && WellFormed(g.sym);
      EndOfRegion(g, rgid, a, size);
      forall x | a <= x < a + size
        ensures NewlyLive(h, g, rgid, x)
      {
        OnlyOwner(h, g, rgid, x);
      }
    }
  }

  lemma EndOfRegion(g: Heap, rgid: nat, a: nat, size: nat)
    requires Sound(g) && rgid < SYMBOLS && size < ADDRS && g.sym[rgid] == Region(a, Wrap(a + size)) && g.sym[rgid].start <= g.sym[rgid].end
    ensures Wrap(a + size) == a + size && (size > 0 ==> a + size <= g.sbrk)
  {
    if size > 0 {
      var x := Wrap(a + size) - 1;
      WrapNoLess(a, size);
      hide Wrap;
      CountSplit(g.sym, rgid, x);
      assert Owners(g, x) == if 0 <= x < g.sbrk then 1 else 0;
    }
  }

  lemma WrapNoLess(a: nat, size: nat)
    requires 0 < size < ADDRS && a <= Wrap(a + size)
    ensures Wrap(a + size) == a + size
  {}

  lemma OnlyOwner(h: Heap, g: Heap, rgid: nat, x: nat)
    requires Sound(g) && rgid < SYMBOLS && |h.sym| == SYMBOLS && Holds(g.sym[rgid], x) == 1
    requires g.lost == h.lost + [h.sym[rgid]] && forall i :: 0 <= i < SYMBOLS && i != rgid ==> g.sym[i] == h.sym[i]
    ensures NewlyLive(h, g, rgid, x)
  {
    assert Owners(g, x) <= 1;
    assert g.sym == h.sym[rgid := g.sym[rgid]];
    CountUpdate(h.sym, rgid, g.sym[rgid], x);
    CountAppend(h.lost, [h.sym[rgid]], x);
    forall i | 0 <= i < SYMBOLS && i != rgid
      ensures Holds(g.sym[i], x) == 0
    {
      CountPair(g.sym, if i < rgid then i else rgid, if i < rgid then rgid else i, x);
    }
  }

  // ---------- runs ----------

  /** No operation of the list is on the register. */
  predicate Spares(ops: seq<Op>, rgid: nat) { forall i :: 0 <= i < |ops| ==> ops[i].rgid != rgid }

  lemma StepSpares(h: Heap, op: Op, rgid: nat, rewrite: bool)
    requires |h.sym| == SYMBOLS && op.rgid < SYMBOLS && rgid < SYMBOLS && op.rgid != rgid
    ensures Step(h, op, rewrite).sym[rgid] == h.sym[rgid]
  {
    match op
    case AllocOp(r, size, listed) => AllocMeans(h, r, size, listed, rewrite); hide Alloc;
    case FreeOp(r) => ReleaseMeans(h, r); hide Release;
  }

  lemma {:induction false} RunSpares(ops: seq<Op>, more: seq<Op>, rgid: nat, rewrite: bool)
    requires AllCallable(ops) && AllCallable(more) && rgid < SYMBOLS && Spares(more, rgid)
    ensures AllCallable(ops + more) && Run(ops + more, rewrite).sym[rgid] == Run(ops, rewrite).sym[rgid]
    decreases |more|
  {
    if more == [] {
      assert ops + more == ops;
    } else {
      var shorter, op := more[..|more| - 1], more[|more| - 1];
      RunSpares(ops, shorter, rgid, rewrite);
      assert ops + more == (ops + shorter) + [op] && Callable(op);
      RunAppend(ops + shorter, op, rewrite);
      hide Run;
      StepSpares(Run(ops + shorter, rewrite), op, rgid, rewrite);
    }
  }

  // The address that a run answers stays the start of the register's region, of the size that was
  // asked for, until an operation on the same register.
  lemma AnswerStays(ops: seq<Op>, rgid: nat, size: nat, listed: bool, more: seq<Op>, rewrite: bool)
    requires AllCallable(ops) && AllCallable(more) && rgid < SYMBOLS && size < ADDRS && Spares(more, rgid)
    requires HarmlessThroughout(ops, rewrite) && Harmless(Run(ops, rewrite), size, listed, rewrite)
    ensures var answer, all := Alloc(Run(ops, rewrite), rgid, size, listed, rewrite).1, ops + [AllocOp(rgid, size, listed)] + more;
            AllCallable(all) &&
            (answer.Some? ==> Run(all, rewrite).sym[rgid] == Region(answer.value, answer.value + size))
  {
    var op := AllocOp(rgid, size, listed);
    assert Callable(op);
    RunAppend(ops, op, rewrite);
    RunSoundExactly(ops, rewrite);
    RunSpares(ops + [op], more, rgid, rewrite);
    AllocGivesBytes(Run(ops, rewrite), rgid, size, listed, rewrite);
    hide Run, Alloc, AllCallable, Sound;
  }
}
