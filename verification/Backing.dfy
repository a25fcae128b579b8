/**
 * The heaps, page tables and frames of a run together: every byte of a live region lies in a
 * present page with a frame number of its own, and victim pages come out in the order of their numbers.
 */
module Backing {
  import opened Words
  import opened Pte
  import opened PageTable
  import opened FreeList
  import opened UserHeap
  import opened Memory
  import opened FrameOwners
  import opened Mapping
  import UserMemory

  // ---------- all heaps ----------

  ghost predicate HeapsSound(sys: Sys) { forall p :: 0 <= p < |sys.spaces| ==> Sound(sys.spaces[p].heap) }

  predicate HarmlessStep(sys: Sys, op: SysOp, rewrite: bool)
    requires FrameOwners.Callable(sys, op)
  {
    op.AllocIn? ==> Harmless(sys.spaces[op.p].heap, op.size, op.listed, rewrite)
  }

  // Whatever becomes of the frames, the step does to the heap what the allocator does.
  lemma AfterHeap(sys: Sys, op: SysOp, rewrite: bool)
    requires SpacesOk(sys.spaces) && FrameOwners.Callable(sys, op) && !op.LoadOp?
    ensures var t := After(sys, op, rewrite);
            && |t.spaces| == |sys.spaces| && t.spaces[op.p].heap == HeapAfter(sys, op, rewrite)
            && forall p :: 0 <= p < |sys.spaces| && p != op.p ==> t.spaces[p] == sys.spaces[p]
  {
    assert SpaceOk(sys.spaces[op.p]);
    hide HeapAfter, Mapped, PageRange, SpaceOk, Overwritten;
  }

  lemma StepHeapsSound(sys: Sys, op: SysOp, rewrite: bool)
    requires SpacesOk(sys.spaces) && FrameOwners.Callable(sys, op) && HeapsSound(sys)
    ensures HeapsSound(After(sys, op, rewrite)) <==> HarmlessStep(sys, op, rewrite)
  {
    hide Sound, Harmless, SpacesOk, UserHeap.Alloc, Release;
    match op
    case LoadOp =>
      NewHeapSound();
      hide NewHeap;
    case AllocIn(p, rgid, size, listed) =>
      AfterHeap(sys, op, rewrite);
      AllocSoundExactly(sys.spaces[p].heap, rgid, size, listed, rewrite);
      hide After;
    case FreeIn(p, rgid) =>
      AfterHeap(sys, op, rewrite);
      ReleaseSound(sys.spaces[p].heap, rgid);
      hide After;
  }

  ghost predicate SoundAllAlong(sys: Sys, ops: seq<SysOp>, rewrite: bool)
    requires FrameOwners.CanRun(sys, ops, rewrite)
    decreases |ops|
  {
    HeapsSound(sys) && (ops != [] ==> SoundAllAlong(After(sys, ops[0], rewrite), ops[1..], rewrite))
  }

  ghost predicate HarmlessRun(sys: Sys, ops: seq<SysOp>, rewrite: bool)
    requires FrameOwners.CanRun(sys, ops, rewrite)
    decreases |ops|
  {
    ops != [] ==> HarmlessStep(sys, ops[0], rewrite) && HarmlessRun(After(sys, ops[0], rewrite), ops[1..], rewrite)
  }

  lemma {:induction false} RunHeapsSound(sys: Sys, ops: seq<SysOp>, rewrite: bool)
    requires FrameOwners.CanRun(sys, ops, rewrite) && HeapsSound(sys)
    ensures SoundAllAlong(sys, ops, rewrite) <==> HarmlessRun(sys, ops, rewrite)
    ensures HarmlessRun(sys, ops, rewrite) ==> HeapsSound(FrameOwners.Run(sys, ops, rewrite))
    decreases |ops|
  {
    if ops == [] {
    } else {
      StepHeapsSound(sys, ops[0], rewrite);
      var t := After(sys, ops[0], rewrite);
      hide HeapsSound, HarmlessStep, After;
      if HeapsSound(t) {
        RunHeapsSound(t, ops[1..], rewrite);
      }
    }
  }

  // The heaps of all processes are sound at every point of a run if and only if each allocation
  // in it is harmless.
  lemma HeapsSoundExactly(n: nat, ops: seq<SysOp>, rewrite: bool)
    requires FrameOwners.CanRun(Boot(n), ops, rewrite)
    ensures SoundAllAlong(Boot(n), ops, rewrite) <==> HarmlessRun(Boot(n), ops, rewrite)
  {
    RunHeapsSound(Boot(n), ops, rewrite);
  }

  // Without the rewriting of the list head, sizes that fit an int are all it takes.
  lemma {:induction false} DesignHarmless(sys: Sys, ops: seq<SysOp>)
    requires FrameOwners.CanRun(sys, ops, false)
    requires forall i :: 0 <= i < |ops| ==> (ops[i].AllocIn? ==> ops[i].size <= MAX_INT)
    ensures HarmlessRun(sys, ops, false)
    decreases |ops|
  {
    if ops == [] {
    } else {
      DesignHarmless(After(sys, ops[0], false), ops[1..]);
    }
  }

  // ---------- one process among many ----------

  /** The allocator call of process p that an operation is, if it is one. */
  function CallOf(op: SysOp, p: nat): seq<Op> {
    match op
    case LoadOp => []
    case AllocIn(q, rgid, size, listed) => if q == p then [AllocOp(rgid, size, listed)] else []
    case FreeIn(q, rgid) => if q == p then [FreeOp(rgid)] else []
  }

  /** `calls`, followed by the allocator calls of process p in a run of the system. */
  function CallsOf(ops: seq<SysOp>, p: nat, calls: seq<Op>): seq<Op> {
    if ops == [] then calls else CallsOf(ops[1..], p, calls + CallOf(ops[0], p))
  }

  /** The heap of process p is what its own calls make of a new heap; before it is loaded there are none. */
  ghost predicate Follows(sys: Sys, p: nat, calls: seq<Op>, rewrite: bool) {
    && AllCallable(calls)
    && (p < |sys.spaces| ==> sys.spaces[p].heap == UserHeap.Run(calls, rewrite))
    && (p >= |sys.spaces| ==> calls == [])
  }

  lemma StepFollows(sys: Sys, op: SysOp, p: nat, calls: seq<Op>, rewrite: bool)
    requires SpacesOk(sys.spaces) && FrameOwners.Callable(sys, op) && Follows(sys, p, calls, rewrite)
    ensures Follows(After(sys, op, rewrite), p, calls + CallOf(op, p), rewrite)
  {
    match op
    case LoadOp =>
      LoadFollows(sys, p, calls, rewrite);
    case AllocIn(q, rgid, size, listed) =>
      AfterHeap(sys, op, rewrite);
      hide Follows, After, HeapAfter, SpacesOk;
      OneCallFollows(sys, op, q, p, calls, AllocOp(rgid, size, listed), rewrite);
    case FreeIn(q, rgid) =>
      AfterHeap(sys, op, rewrite);
      hide Follows, After, HeapAfter, SpacesOk;
      OneCallFollows(sys, op, q, p, calls, FreeOp(rgid), rewrite);
  }

  lemma LoadFollows(sys: Sys, p: nat, calls: seq<Op>, rewrite: bool)
    requires SpacesOk(sys.spaces) && Follows(sys, p, calls, rewrite)
    ensures Follows(After(sys, LoadOp, rewrite), p, calls + CallOf(LoadOp, p), rewrite)
  {
    assert calls + [] == calls;
    assert UserHeap.Run([], rewrite) == NewHeap();
    hide NewHeap, UserHeap.Run, SpacesOk;
  }

  lemma OneCallFollows(sys: Sys, op: SysOp, q: nat, p: nat, calls: seq<Op>, call: Op, rewrite: bool)
    requires SpacesOk(sys.spaces) && FrameOwners.Callable(sys, op) && Follows(sys, p, calls, rewrite) && !op.LoadOp? && op.p == q
    requires UserHeap.Callable(call) && (call == if op.AllocIn? then AllocOp(op.rgid, op.size, op.listed) else FreeOp(op.rgid))
    requires |After(sys, op, rewrite).spaces| == |sys.spaces| && q < |sys.spaces|
    requires After(sys, op, rewrite).spaces[q].heap == HeapAfter(sys, op, rewrite)
    requires forall r :: 0 <= r < |sys.spaces| && r != q ==> After(sys, op, rewrite).spaces[r] == sys.spaces[r]
    ensures Follows(After(sys, op, rewrite), p, calls + (if q == p then [call] else []), rewrite)
  {
    if q == p {
      RunAppend(calls, call, rewrite);
      assert HeapAfter(sys, op, rewrite) == Step(sys.spaces[p].heap, call, rewrite) by { hide UserHeap.Alloc, Release; }
    } else {
      assert calls + [] == calls;
    }
    hide After, HeapAfter, Step, UserHeap.Run, AllCallable;
  }

  lemma {:induction false} RunFollows(sys: Sys, ops: seq<SysOp>, p: nat, calls: seq<Op>, rewrite: bool)
    requires FrameOwners.CanRun(sys, ops, rewrite) && Follows(sys, p, calls, rewrite)
    ensures Follows(FrameOwners.Run(sys, ops, rewrite), p, CallsOf(ops, p, calls), rewrite)
    decreases |ops|
  {
    if ops == [] {
    } else {
      StepFollows(sys, ops[0], p, calls, rewrite);
      hide Follows, After, CallOf;
      RunFollows(After(sys, ops[0], rewrite), ops[1..], p, calls + CallOf(ops[0], p), rewrite);
    }
  }

  // Among any others, each process's heap is the one its own calls make: all theorems about runs
  // of one heap hold of every process.
  lemma HeapOfProcess(n: nat, ops: seq<SysOp>, rewrite: bool, p: nat)
    requires FrameOwners.CanRun(Boot(n), ops, rewrite)
    ensures var sys := FrameOwners.Run(Boot(n), ops, rewrite);
            AllCallable(CallsOf(ops, p, [])) && (p < |sys.spaces| ==> sys.spaces[p].heap == UserHeap.Run(CallsOf(ops, p, []), rewrite))
  {
    assert Follows(Boot(n), p, [], rewrite);
    RunFollows(Boot(n), ops, p, [], rewrite);
  }

  // ---------- live bytes ----------

  /** Frame f is decoded from no present entry but that of page i of process p. */
  ghost predicate OnlyFor(sys: Sys, f: bv64, p: nat, i: nat) {
    forall q, b: Path :: 0 <= q < |sys.spaces| && Present(EntryAtPath(sys, q, b)) && Fpn(EntryAtPath(sys, q, b)) == f
                         ==> q == p && b == PagePath(i)
  }

  /** Byte x of process p lies in a present page, on a frame that no other entry decodes to. */
  ghost predicate Backed(sys: Sys, p: nat, x: nat)
    requires p < |sys.spaces|
  {
    var e := PageEntry(sys.spaces[p], x / PAGE);
    Present(e) && OnlyFor(sys, Fpn(e), p, x / PAGE)
  }

  /** Region number rgid of process p is the only live region of p with byte x, which is not free. */
  ghost predicate SoleOwner(h: Heap, rgid: nat, x: nat) {
    Count(h.free, x) == 0 && forall r :: 0 <= r < |h.sym| && r != rgid ==> Holds(h.sym[r], x) == 0
  }

  lemma SoundSoleOwner(h: Heap, rgid: nat, x: nat)
    requires Sound(h) && rgid < SYMBOLS && Holds(h.sym[rgid], x) == 1
    ensures x < h.sbrk && SoleOwner(h, rgid, x)
  {
    assert Owners(h, x) == if 0 <= x < h.sbrk then 1 else 0;
    CountSplit(h.sym, rgid, x);
    forall r | 0 <= r < |h.sym| && r != rgid
      ensures Holds(h.sym[r], x) == 0
    {
      CountPair(h.sym, if r < rgid then r else rgid, if r < rgid then rgid else r, x);
    }
  }

  lemma {:induction false} HarmlessNeverLowers(sys: Sys, ops: seq<SysOp>, rewrite: bool)
    requires FrameOwners.CanRun(sys, ops, rewrite) && HarmlessRun(sys, ops, rewrite)
    ensures NeverLowers(sys, ops, rewrite)
    decreases |ops|
  {
    if ops == [] {
    } else {
      HarmlessNeverLowers(After(sys, ops[0], rewrite), ops[1..], rewrite);
    }
  }

  // A run that is never short of frames and whose allocations are harmless: each byte of a live
  // region belongs to that region alone and lies in a present page whose frame number no other
  // entry of any process decodes to. This is about page-table entries, not about the bytes of the
  // device: a page has 4096 bytes, while `MEMPHY_format` cuts frames of 256.
  lemma LiveBytesBacked(maxsz: nat, ops: seq<SysOp>, rewrite: bool, p: nat, rgid: nat, x: nat)
    requires RamOk(maxsz / FRAME_BYTES) && FrameOwners.CanRun(Boot(maxsz / FRAME_BYTES), ops, rewrite)
    ensures var sys := FrameOwners.Run(Boot(maxsz / FRAME_BYTES), ops, rewrite);
            NeverShort(Boot(maxsz / FRAME_BYTES), ops, rewrite) && HarmlessRun(Boot(maxsz / FRAME_BYTES), ops, rewrite)
            && p < |sys.spaces| && rgid < SYMBOLS ==>
              var h := sys.spaces[p].heap;
              |h.sym| == SYMBOLS && (Holds(h.sym[rgid], x) == 1 ==> Backed(sys, p, x) && SoleOwner(h, rgid, x))
  {
    var n := maxsz / FRAME_BYTES;
    var sys := FrameOwners.Run(Boot(n), ops, rewrite);
    BootConserved(n);
    RunConserved(Boot(n), Frames(n), ops, rewrite);
    if NeverShort(Boot(n), ops, rewrite) && HarmlessRun(Boot(n), ops, rewrite) && p < |sys.spaces| && rgid < SYMBOLS {
      HarmlessNeverLowers(Boot(n), ops, rewrite);
      RunComplete(Boot(n), Frames(n), ops, rewrite);
      RunHeapsSound(Boot(n), ops, rewrite);
      var s := sys.spaces[p];
      assert Sound(s.heap) && SpaceOk(s) && SpaceComplete(s);
      hide NeverShort, HarmlessRun, SpacesOk, Conserved, Boot, FrameOwners.Run, FrameOwners.CanRun, Backed, SoleOwner;
      if Holds(s.heap.sym[rgid], x) == 1 {
        SoundSoleOwner(s.heap, rgid, x);
        BackedByFrame(maxsz, ops, rewrite, p, x);
      }
    }
  }

  lemma BackedByFrame(maxsz: nat, ops: seq<SysOp>, rewrite: bool, p: nat, x: nat)
    requires RamOk(maxsz / FRAME_BYTES) && FrameOwners.CanRun(Boot(maxsz / FRAME_BYTES), ops, rewrite)
    ensures var sys := FrameOwners.Run(Boot(maxsz / FRAME_BYTES), ops, rewrite);
            p < |sys.spaces| && SpaceComplete(sys.spaces[p]) && x / PAGE < Pages(sys.spaces[p]) <= PAGES ==> Backed(sys, p, x)
  {
    var sys, i := FrameOwners.Run(Boot(maxsz / FRAME_BYTES), ops, rewrite), x / PAGE;
    if p < |sys.spaces| && SpaceComplete(sys.spaces[p]) && i < Pages(sys.spaces[p]) <= PAGES {
      var s := sys.spaces[p];
      hide PagePath, Lookup, Present, Fpn, Boot, FrameOwners.Run, FrameOwners.CanRun;
      assert Present(PageEntry(s, i));
      forall q, b: Path | 0 <= q < |sys.spaces| && Present(EntryAtPath(sys, q, b))
                          && Fpn(EntryAtPath(sys, q, b)) == Fpn(PageEntry(s, i))
        ensures q == p && b == PagePath(i)
      {
        FrameExclusive(maxsz, ops, rewrite, p, PagePath(i), q, b);
      }
    }
  }

  // ---------- the order of the tracked pages ----------

  /** The pages a, ..., a + n - 1 as successive calls of `enlist_pgn_node` leave them. */
  function Newest(a: nat, n: nat): (l: seq<bv64>)
    ensures |l| == n
  {
    Reversed(PageRange(a, n))
  }

  /** The page list holds the pages below the break, newest first. */
  predicate Tracked(s: Space) { s.fifo == Newest(0, Pages(s)) }

  ghost predicate AllTracked(spaces: seq<Space>) { forall p :: 0 <= p < |spaces| ==> Tracked(spaces[p]) }

  ghost predicate NoExtra(spaces: seq<Space>) { forall p :: 0 <= p < |spaces| ==> |spaces[p].fifo| <= Pages(spaces[p]) }

  lemma NewestJoin(a: nat, n: nat)
    ensures Newest(0, a + n) == Newest(a, n) + Newest(0, a)
  {
    var both := Newest(0, a + n);
    forall i | 0 <= i < a + n
      ensures both[i] == (Newest(a, n) + Newest(0, a))[i]
    {
      assert both[i] == Word(a + n - 1 - i);
    }
  }

  lemma GrowthTracks(fifo: seq<bv64>, a: nat, n: nat)
    ensures Newest(a, n) + fifo == Newest(0, a + n) <==> fifo == Newest(0, a)
  {
    NewestJoin(a, n);
    hide Newest;
    if Newest(a, n) + fifo == Newest(0, a + n) {
      assert fifo == (Newest(a, n) + fifo)[n..] && Newest(0, a) == (Newest(a, n) + Newest(0, a))[n..];
    }
  }

  lemma SupplyFifo(sys: Sys, p: nat, h: Heap)
    requires p < |sys.spaces| && Wf(sys.spaces[p].tables.tree)
    ensures var s, t, n := sys.spaces[p], Supply(sys, p, h).spaces, Needed(sys.spaces[p], h);
            && |t| == |sys.spaces| && (forall q :: 0 <= q < |t| && q != p ==> t[q] == sys.spaces[q])
            && t[p].heap == h && t[p].fifo == if n <= |sys.free| then Newest(Pages(s), n) + s.fifo else s.fifo
  {
    hide Mapped, Wf, Needed, PageRange, Overwritten;
  }

  lemma SupplyTracked(sys: Sys, p: nat, h: Heap)
    requires p < |sys.spaces| && Wf(sys.spaces[p].tables.tree) && |sys.spaces[p].fifo| <= Pages(sys.spaces[p])
    requires h.sbrk / PAGE == Pages(sys.spaces[p]) + Needed(sys.spaces[p], h)
    ensures var s, t := sys.spaces[p], Supply(sys, p, h).spaces;
            && |t| == |sys.spaces| && (forall q :: 0 <= q < |t| && q != p ==> t[q] == sys.spaces[q])
            && |t[p].fifo| <= Pages(t[p])
            && (Tracked(t[p]) <==> Tracked(s) && Needed(s, h) <= |sys.free|)
  {
    var s, n := sys.spaces[p], Needed(sys.spaces[p], h);
    SupplyFifo(sys, p, h);
    var t := Supply(sys, p, h).spaces[p];
    hide Supply, Wf, Needed, Newest;
    assert Pages(t) == Pages(s) + n;
    hide Pages;
    FifoTracked(s, t, n, n <= |sys.free|);
  }

  lemma FifoTracked(s: Space, t: Space, n: nat, enough: bool)
    requires Pages(t) == Pages(s) + n && |s.fifo| <= Pages(s) && (!enough ==> n > 0)
    requires t.fifo == if enough then Newest(Pages(s), n) + s.fifo else s.fifo
    ensures |t.fifo| <= Pages(t) && (Tracked(t) <==> Tracked(s) && enough)
  {
    hide Pages, Newest;
    GrowthTracks(s.fifo, Pages(s), n);
  }

  // A step keeps every page list as it should be exactly when it is neither short nor lowers the
  // break; and a list that is too short stays so.
  lemma StepTracked(sys: Sys, op: SysOp, rewrite: bool)
    requires SpacesOk(sys.spaces) && FrameOwners.Callable(sys, op) && NoExtra(sys.spaces) && !LowersBreak(sys, op)
    ensures NoExtra(After(sys, op, rewrite).spaces)
    ensures AllTracked(After(sys, op, rewrite).spaces) <==> AllTracked(sys.spaces) && !Short(sys, op)
  {
    if op.LoadOp? {
      LoadTracked(sys, rewrite);
    } else {
      assert SpaceOk(sys.spaces[op.p]);
      HeapMoves(sys, op, rewrite);
      ShortMeansNeeded(sys, op, rewrite);
      hide LowersBreak, Short, SpaceOk, BreakOk, HeapAfter;
      SupplyTracked(sys, op.p, HeapAfter(sys, op, rewrite));
      hide Supply, Tracked, Pages, Needed;
    }
  }

  lemma LoadTracked(sys: Sys, rewrite: bool)
    requires SpacesOk(sys.spaces)
    ensures var t := After(sys, LoadOp, rewrite).spaces;
            (NoExtra(sys.spaces) ==> NoExtra(t)) && (AllTracked(t) <==> AllTracked(sys.spaces))
  {
    var t := After(sys, LoadOp, rewrite).spaces;
    assert Tracked(NewSpace()) && Pages(NewSpace()) == 0 && NewSpace().fifo == [];
    hide NewSpace, Tracked, Pages;
    assert forall q :: 0 <= q < |sys.spaces| ==> t[q] == sys.spaces[q];
  }

  lemma StepUntracked(sys: Sys, op: SysOp, rewrite: bool)
    requires SpacesOk(sys.spaces) && FrameOwners.Callable(sys, op) && AllTracked(sys.spaces) && LowersBreak(sys, op)
    ensures !AllTracked(After(sys, op, rewrite).spaces)
  {
    var s, t := sys.spaces[op.p], After(sys, op, rewrite).spaces[op.p];
    assert SpaceOk(s) && Tracked(s);
    HeapMoves(sys, op, rewrite);
    assert t.fifo == s.fifo && Pages(t) < Pages(s);
    hide After, HeapAfter, LowersBreak, Newest, Pages;
    assert |t.fifo| != |Newest(0, Pages(t))|;
    assert !Tracked(t);
  }

  lemma {:induction false} RunTracked(sys: Sys, ops: seq<SysOp>, rewrite: bool)
    requires FrameOwners.CanRun(sys, ops, rewrite) && NoExtra(sys.spaces) && NeverLowers(sys, ops, rewrite)
    ensures AllTracked(FrameOwners.Run(sys, ops, rewrite).spaces) <==> AllTracked(sys.spaces) && NeverShort(sys, ops, rewrite)
    decreases |ops|
  {
    if ops == [] {
    } else {
      StepTracked(sys, ops[0], rewrite);
      hide AllTracked, NoExtra, Short, LowersBreak, After;
      RunTracked(After(sys, ops[0], rewrite), ops[1..], rewrite);
    }
  }

  // In a run that never lowers a break, every process's page list ends up holding the pages below
  // its break in the order in which they were mapped if and only if no growth exceeded the free
  // frames.
  lemma TrackedExactly(n: nat, ops: seq<SysOp>, rewrite: bool)
    requires RamOk(n) && FrameOwners.CanRun(Boot(n), ops, rewrite) && NeverLowers(Boot(n), ops, rewrite)
    ensures AllTracked(FrameOwners.Run(Boot(n), ops, rewrite).spaces) <==> NeverShort(Boot(n), ops, rewrite)
  {
    RunTracked(Boot(n), ops, rewrite);
  }

  ghost predicate TrackedAllAlong(sys: Sys, ops: seq<SysOp>, rewrite: bool)
    requires FrameOwners.CanRun(sys, ops, rewrite)
    decreases |ops|
  {
    AllTracked(sys.spaces) && (ops != [] ==> TrackedAllAlong(After(sys, ops[0], rewrite), ops[1..], rewrite))
  }

  lemma TrackedNoExtra(spaces: seq<Space>)
    requires AllTracked(spaces)
    ensures NoExtra(spaces)
  {
    hide Newest, Pages;
    assert forall p :: 0 <= p < |spaces| ==> Tracked(spaces[p]);
  }

  lemma {:induction false} RunTrackedAllAlong(sys: Sys, ops: seq<SysOp>, rewrite: bool)
    requires FrameOwners.CanRun(sys, ops, rewrite) && AllTracked(sys.spaces)
    ensures TrackedAllAlong(sys, ops, rewrite) <==> NeverShort(sys, ops, rewrite) && NeverLowers(sys, ops, rewrite)
    decreases |ops|
  {
    if ops == [] {
    } else {
      TrackedNoExtra(sys.spaces);
      if LowersBreak(sys, ops[0]) {
        StepUntracked(sys, ops[0], rewrite);
      } else {
        StepTracked(sys, ops[0], rewrite);
      }
      var t := After(sys, ops[0], rewrite);
      hide AllTracked, NoExtra, Short, LowersBreak, After;
      if AllTracked(t.spaces) {
        RunTrackedAllAlong(t, ops[1..], rewrite);
      }
    }
  }

  // For runs of any sizes: the page lists hold the pages below the breaks, newest first, at every
  // point if and only if no growth exceeds the free frames and no allocation lowers a break.
  lemma TrackedThroughExactly(n: nat, ops: seq<SysOp>, rewrite: bool)
    requires RamOk(n) && FrameOwners.CanRun(Boot(n), ops, rewrite)
    ensures TrackedAllAlong(Boot(n), ops, rewrite) <==>
            NeverShort(Boot(n), ops, rewrite) && NeverLowers(Boot(n), ops, rewrite)
  {
    RunTrackedAllAlong(Boot(n), ops, rewrite);
  }

  // Then victims leave oldest first: pages 0, 1, 2, ...
  lemma VictimsInOrder(n: nat, ops: seq<SysOp>, rewrite: bool, p: nat, k: nat)
    requires RamOk(n) && FrameOwners.CanRun(Boot(n), ops, rewrite)
    requires NeverShort(Boot(n), ops, rewrite) && NeverLowers(Boot(n), ops, rewrite)
    ensures var sys := FrameOwners.Run(Boot(n), ops, rewrite);
            p < |sys.spaces| && k <= Pages(sys.spaces[p]) ==>
              k <= |sys.spaces[p].fifo| && UserMemory.Victims(sys.spaces[p].fifo, k) == PageRange(0, k)
  {
    TrackedExactly(n, ops, rewrite);
    var sys := FrameOwners.Run(Boot(n), ops, rewrite);
    if p < |sys.spaces| && k <= Pages(sys.spaces[p]) {
      var s := sys.spaces[p];
      assert Tracked(s);
      hide FrameOwners.Run, FrameOwners.CanRun, NeverShort, NeverLowers, Boot, Newest, PageRange;
      UserMemory.OldestFirst(s.fifo, k);
      OldestPages(Pages(s), k);
    }
  }

  lemma OldestPages(n: nat, k: nat)
    requires k <= n
    ensures Reversed(Newest(0, n))[..k] == PageRange(0, k)
  {
    var l := Reversed(Newest(0, n));
    forall i | 0 <= i < k
      ensures l[..k][i] == PageRange(0, k)[i]
    {
      assert l[i] == Newest(0, n)[n - 1 - i] == Word(i);
    }
  }
}
