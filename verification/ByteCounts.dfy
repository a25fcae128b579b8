/** The byte counter of a process in a run of the whole system, in closed form. */
module ByteCounts {
  import opened Words
  import opened Pte
  import opened PageTable
  import opened Paging
  import opened Accounting
  import opened PageMap
  import opened UserHeap
  import opened Memory
  import opened FrameOwners
  import opened Mapping

  /** The calls that `vmap_page_range` makes. */
  function RangeCalls(base: nat, frames: seq<bv64>): seq<Call>
    decreases |frames|
  {
    if frames == [] then []
    else [SetFrame(Word(base), frames[0])] + ([CountLevels(Word(base))] + RangeCalls(base + 1, frames[1..]))
  }

  /** The tables after some calls. */
  function Made(cs: seq<Call>): (ts: Tables)
    ensures Wf(ts.tree)
  {
    Paging.Run(AsOps(cs))
  }

  lemma OneCall(cs: seq<Call>, c: Call)
    ensures Made(cs + [c]) == Do(Made(cs), AsOp(c))
  {
    RunStep(cs + [c]);
    assert (cs + [c])[..|cs|] == cs;
    hide Paging.Run, AsOps, Do, AsOp;
  }

  lemma MapFirstIsCalls(cs: seq<Call>, base: nat, f: bv64)
    ensures MapFirst(Made(cs), base, f) == Made(cs + [SetFrame(Word(base), f)] + [CountLevels(Word(base))])
  {
    OneCall(cs, SetFrame(Word(base), f));
    OneCall(cs + [SetFrame(Word(base), f)], CountLevels(Word(base)));
    hide Made, Do, PteSetFpn;
  }

  // Mapping a range is making these calls.
  lemma {:induction false} MappedIsCalls(cs: seq<Call>, base: nat, frames: seq<bv64>)
    ensures Mapped(Made(cs), base, frames) == Made(cs + RangeCalls(base, frames))
    decreases |frames|
  {
    hide Made, MapFirst, Wf;
    if frames == [] {
      assert cs + [] == cs;
    } else {
      var next := cs + [SetFrame(Word(base), frames[0])] + [CountLevels(Word(base))];
      MapFirstIsCalls(cs, base, frames[0]);
      MappedIsCalls(next, base + 1, frames[1..]);
      NextCalls(cs, base, frames);
    }
  }

  lemma NextCalls(cs: seq<Call>, base: nat, frames: seq<bv64>)
    requires frames != []
    ensures cs + RangeCalls(base, frames) ==
            cs + [SetFrame(Word(base), frames[0])] + [CountLevels(Word(base))] + RangeCalls(base + 1, frames[1..])
  {}

  /** The page numbers base, ..., base + n - 1. */
  function Numbers(base: nat, n: nat): set<bv64>
    decreases n
  {
    if n == 0 then {} else {Word(base)} + Numbers(base + 1, n - 1)
  }

  lemma {:induction false} RangePages(base: nat, frames: seq<bv64>)
    ensures WalkedPages(RangeCalls(base, frames)) == Numbers(base, |frames|)
    ensures CountedPages(RangeCalls(base, frames)) == Numbers(base, |frames|)
    decreases |frames|
  {
    hide WalkedPages, CountedPages, Words.Word;
    NoPagesYet();
    if frames == [] {
    } else {
      RangePages(base + 1, frames[1..]);
      PagesOfTwo(Word(base), frames[0], RangeCalls(base + 1, frames[1..]));
    }
  }

  lemma NoPagesYet()
    ensures WalkedPages([]) == {} && CountedPages([]) == {}
  {}

  lemma PagesOfTwo(pgn: bv64, f: bv64, rest: seq<Call>)
    ensures var all := [SetFrame(pgn, f)] + ([CountLevels(pgn)] + rest);
            WalkedPages(all) == {pgn} + WalkedPages(rest) && CountedPages(all) == {pgn} + CountedPages(rest)
  {
    PagesAppend([CountLevels(pgn)], rest);
    PagesAppend([SetFrame(pgn, f)], [CountLevels(pgn)] + rest);
    OnePage(SetFrame(pgn, f));
    OnePage(CountLevels(pgn));
    hide WalkedPages, CountedPages;
  }

  lemma OnePage(c: Call)
    ensures WalkedPages([c]) == if c.CountLevels? then {} else {c.pgn}
    ensures CountedPages([c]) == if c.CountLevels? then {c.pgn} else {}
  {}

  lemma PagesAppend(cs: seq<Call>, ds: seq<Call>)
    ensures WalkedPages(cs + ds) == WalkedPages(cs) + WalkedPages(ds)
    ensures CountedPages(cs + ds) == CountedPages(cs) + CountedPages(ds)
  {}

  lemma {:induction false} NumbersJoin(base: nat, m: nat, n: nat)
    ensures Numbers(base, m + n) == Numbers(base, m) + Numbers(base + m, n)
    decreases m
  {
    hide Words.Word;
    if m == 0 {
    } else {
      NumbersJoin(base + 1, m - 1, n);
    }
  }

  // ---------- the system ----------

  /** The tables are those that setting and counting the pages 0 .. n - 1 makes. */
  ghost predicate TablesOf(ts: Tables, n: nat) {
    exists cs: seq<Call> :: MadeBy(ts, cs, n)
  }

  ghost predicate MadeBy(ts: Tables, cs: seq<Call>, n: nat) {
    ts == Made(cs) && WalkedPages(cs) == Numbers(0, n) && CountedPages(cs) == Numbers(0, n)
  }

  lemma GrownTables(ts: Tables, n: nat, frames: seq<bv64>)
    requires Wf(ts.tree)
    ensures TablesOf(ts, n) ==> TablesOf(Mapped(ts, n, frames), n + |frames|)
  {
    if TablesOf(ts, n) {
      var cs: seq<Call> :| MadeBy(ts, cs, n);
      var ds := cs + RangeCalls(n, frames);
      MappedIsCalls(cs, n, frames);
      GrownPages(cs, n, frames);
      assert MadeBy(Made(ds), ds, n + |frames|);
      assert Mapped(ts, n, frames) == Made(ds);
      hide MadeBy, Mapped, Made, Wf, RangeCalls;
    }
  }

  lemma GrownPages(cs: seq<Call>, n: nat, frames: seq<bv64>)
    requires WalkedPages(cs) == Numbers(0, n) && CountedPages(cs) == Numbers(0, n)
    ensures var ds := cs + RangeCalls(n, frames);
            WalkedPages(ds) == Numbers(0, n + |frames|) && CountedPages(ds) == Numbers(0, n + |frames|)
  {
    hide *;
    RangePages(n, frames);
    PagesAppend(cs, RangeCalls(n, frames));
    NumbersJoin(0, n, |frames|);
  }

  lemma NewTablesOf()
    ensures TablesOf(NEW_TABLES, 0)
  {
    assert MadeBy(NEW_TABLES, [], 0);
  }

  /** The tables of a process are those of the pages below its break. */
  ghost predicate TablesFit(s: Space) { TablesOf(s.tables, Pages(s)) }

  ghost predicate AllTablesOf(spaces: seq<Space>) { forall p :: 0 <= p < |spaces| ==> TablesFit(spaces[p]) }

  lemma GrownFits(s: Space, h: Heap, frames: seq<bv64>)
    requires Wf(s.tables.tree) && h.sbrk / PAGE == Pages(s) + |frames|
    ensures TablesFit(s) ==> TablesFit(FrameOwners.Grown(s, h, frames))
  {
    hide TablesOf, Mapped, Wf, PageRange, Reversed;
    GrownTables(s.tables, Pages(s), frames);
    MoveTables(Mapped(s.tables, Pages(s), frames), Pages(s) + |frames|, h.sbrk / PAGE);
  }

  lemma MoveTables(ts: Tables, n: nat, m: nat)
    requires n == m
    ensures TablesOf(ts, n) <==> TablesOf(ts, m)
  {
    hide *;
  }

  lemma SupplyFits(sys: Sys, p: nat, h: Heap)
    requires p < |sys.spaces| && Wf(sys.spaces[p].tables.tree) && Needed(sys.spaces[p], h) <= |sys.free|
    requires h.sbrk / PAGE == Pages(sys.spaces[p]) + Needed(sys.spaces[p], h)
    ensures var t := Supply(sys, p, h).spaces;
            |t| == |sys.spaces| && (TablesFit(sys.spaces[p]) ==> TablesFit(t[p]))
  {
    GrownFits(sys.spaces[p], h, Reversed(sys.free[..Needed(sys.spaces[p], h)]));
    hide TablesFit, FrameOwners.Grown, Wf, Pages, Needed, Overwritten;
  }

  lemma SupplyTables(sys: Sys, p: nat, h: Heap)
    requires p < |sys.spaces| && Wf(sys.spaces[p].tables.tree)
    requires h.sbrk / PAGE == Pages(sys.spaces[p]) + Needed(sys.spaces[p], h) && Needed(sys.spaces[p], h) <= |sys.free|
    ensures AllTablesOf(sys.spaces) ==> AllTablesOf(Supply(sys, p, h).spaces)
  {
    SupplyFits(sys, p, h);
    var t := Supply(sys, p, h).spaces;
    hide TablesFit, FrameOwners.Grown, Wf, Pages, Needed;
    assert forall q :: 0 <= q < |t| && q != p ==> t[q] == sys.spaces[q];
  }

  lemma StepTables(sys: Sys, op: SysOp, rewrite: bool)
    requires SpacesOk(sys.spaces) && FrameOwners.Callable(sys, op) && AllTablesOf(sys.spaces)
    requires !Short(sys, op) && !LowersBreak(sys, op)
    ensures AllTablesOf(After(sys, op, rewrite).spaces)
  {
    if op.LoadOp? {
      var t := After(sys, op, rewrite).spaces;
      NewTablesOf();
      assert TablesFit(NewSpace());
      assert forall q :: 0 <= q < |sys.spaces| ==> t[q] == sys.spaces[q];
      hide NewSpace, TablesFit;
    } else {
      assert SpaceOk(sys.spaces[op.p]);
      HeapMoves(sys, op, rewrite);
      ShortMeansNeeded(sys, op, rewrite);
      hide LowersBreak, Short, HeapAfter, AllTablesOf;
      SupplyTables(sys, op.p, HeapAfter(sys, op, rewrite));
      hide Supply;
    }
  }

  lemma {:induction false} RunTables(sys: Sys, ops: seq<SysOp>, rewrite: bool)
    requires FrameOwners.CanRun(sys, ops, rewrite) && AllTablesOf(sys.spaces)
    requires NeverShort(sys, ops, rewrite) && NeverLowers(sys, ops, rewrite)
    ensures AllTablesOf(FrameOwners.Run(sys, ops, rewrite).spaces)
    decreases |ops|
  {
    if ops == [] {
    } else {
      StepTables(sys, ops[0], rewrite);
      hide AllTablesOf, Short, LowersBreak, After;
      RunTables(After(sys, ops[0], rewrite), ops[1..], rewrite);
    }
  }

  // ---------- the closed form ----------

  lemma WordBelow512(n: nat)
    requires n < 512
    ensures Word(n) < 512
  {
    assert Pow2(9) == 512 by { assert Pow2(5) == 32; }
    WordHighBits(n, 9);
    assert HighBits(9) == 0xffff_ffff_ffff_fe00 by { assert HighBits(5) == 0xffff_ffff_ffff_ffe0; }
  }

  lemma SmallAncestor(g: bv64, k: nat)
    requires g < 512 && 1 <= k <= 4
    ensures Ancestor(g, k) == 0
  {}

  lemma SmallPath(g: bv64)
    requires g < 512
    ensures PdFromPagenum(g) == Path(0, 0, 0, 0, g)
  {
    PdIndices(g);
    SmallFields(g);
  }

  lemma SmallFields(g: bv64)
    requires g < 512
    ensures (g >> 36) & 0x1ff == 0 && (g >> 27) & 0x1ff == 0 && (g >> 18) & 0x1ff == 0 && (g >> 9) & 0x1ff == 0 && g & 0x1ff == g
  {}

  lemma {:induction false} NumberOf(base: nat, n: nat, g: bv64) returns (i: nat)
    requires g in Numbers(base, n)
    ensures base <= i < base + n && Word(i) == g
    decreases n
  {
    i := base;
    if g != Word(base) {
      i := NumberOf(base + 1, n - 1, g);
    }
  }

  lemma SmallNumbers(n: nat)
    requires n <= 512
    ensures forall g <- Numbers(0, n) :: g < 512
  {
    forall g <- Numbers(0, n)
      ensures g < 512
    {
      var i := NumberOf(0, n, g);
      WordBelow512(i);
    }
  }

  lemma {:induction false} NumbersCount(base: nat, n: nat)
    requires base + n <= 512
    ensures |Numbers(base, n)| == n
    decreases n
  {
    if n == 0 {
    } else {
      NumbersCount(base + 1, n - 1);
      var rest := Numbers(base + 1, n - 1);
      if Word(base) in rest {
        var i := NumberOf(base + 1, n - 1, Word(base));
        WordInjective(base, i);
      }
      hide Words.Word;
    }
  }

  lemma SmallAncestors(pgns: set<bv64>, some: bv64, k: nat)
    requires 1 <= k <= 4 && (forall g <- pgns :: g < 512) && some in pgns
    ensures Ancestors(pgns, k) == {0}
  {
    forall h <- pgns
      ensures Ancestor(h, k) == 0
    {
      SmallAncestor(h, k);
    }
    hide Ancestor;
    assert Ancestor(some, k) in Ancestors(pgns, k);
  }

  lemma SmallFlags(pgns: set<bv64>, some: bv64)
    requires (forall g <- pgns :: g < 512) && some in pgns
    ensures FlagsFor(PathsOf(pgns)) == Used({0}, {0}, {0}, {0}, pgns)
  {
    var ps := PathsOf(pgns);
    forall g <- pgns
      ensures PdFromPagenum(g) == Path(0, 0, 0, 0, g)
    {
      SmallPath(g);
    }
    hide PdFromPagenum;
    assert forall g <- pgns :: PdFromPagenum(g) in ps;
    assert forall g <- pgns :: Path(0, 0, 0, 0, g) in ps;
    assert forall p <- ps :: p == Path(0, 0, 0, 0, p.pt) && p.pt in pgns;
    PathFlags(ps, pgns, some);
  }

  lemma PathFlags(ps: set<Path>, pgns: set<bv64>, some: bv64)
    requires some in pgns && (forall g <- pgns :: Path(0, 0, 0, 0, g) in ps)
    requires forall p <- ps :: p == Path(0, 0, 0, 0, p.pt) && p.pt in pgns
    ensures FlagsFor(ps) == Used({0}, {0}, {0}, {0}, pgns)
  {
    var u := FlagsFor(ps);
    assert Path(0, 0, 0, 0, some) in ps;
    assert u.pgd == {0};
    assert u.p4d == {0};
    assert u.pud == {0};
    assert u.pmd == {0};
    forall g <- pgns
      ensures g in u.pt
    {
      assert Path(0, 0, 0, 0, g) in ps;
    }
    assert u.pt == pgns;
  }

  // In a run that is never short and never lowers a break, the byte counter of a process with n
  // pages is 0 for none, and else 4 tables and n + 4 flags.
  lemma ByteCounter(n: nat, ops: seq<SysOp>, rewrite: bool, p: nat)
    requires RamOk(n) && FrameOwners.CanRun(Boot(n), ops, rewrite)
    ensures NeverShort(Boot(n), ops, rewrite) && NeverLowers(Boot(n), ops, rewrite) ==>
              var sys := FrameOwners.Run(Boot(n), ops, rewrite);
              p < |sys.spaces| ==>
                var pages := Pages(sys.spaces[p]);
                Bytes(sys.spaces[p].tables) == if pages == 0 then 0 else 4 * 4096 + 8 * (pages + 4)
  {
    var sys := FrameOwners.Run(Boot(n), ops, rewrite);
    if NeverShort(Boot(n), ops, rewrite) && NeverLowers(Boot(n), ops, rewrite) && p < |sys.spaces| {
      BootConserved(n);
      RunConserved(Boot(n), Frames(n), ops, rewrite);
      RunTables(Boot(n), ops, rewrite);
      assert SpaceOk(sys.spaces[p]) && TablesFit(sys.spaces[p]);
      hide FrameOwners.Run, FrameOwners.CanRun, NeverShort, NeverLowers, TablesOf;
      ClosedForm(sys.spaces[p].tables, Pages(sys.spaces[p]));
    }
  }

  lemma ClosedForm(ts: Tables, pages: nat)
    requires pages <= 512
    ensures TablesOf(ts, pages) ==> Bytes(ts) == if pages == 0 then 0 else 4 * 4096 + 8 * (pages + 4)
  {
    if TablesOf(ts, pages) {
      var cs: seq<Call> :| MadeBy(ts, cs, pages);
      ByteCount(cs);
      if pages == 0 {
        NoPages();
      } else {
        LevelsOfNumbers(pages);
      }
      hide Numbers, Ancestors, FlagsFor, PathsOf, Paging.Run, AsOps, WalkedPages, CountedPages, Bytes, Flags;
    }
  }

  lemma LevelsOfNumbers(pages: nat)
    requires 0 < pages <= 512
    ensures var pgns := Numbers(0, pages);
            |Ancestors(pgns, 1)| == |Ancestors(pgns, 2)| == |Ancestors(pgns, 3)| == |Ancestors(pgns, 4)| == 1
            && Flags(FlagsFor(PathsOf(pgns))) == pages + 4
  {
    var pgns := Numbers(0, pages);
    assert Word(0) in pgns;
    hide *;
    NumbersCount(0, pages);
    SmallNumbers(pages);
    OneAncestor(pgns, Word(0), 1);
    OneAncestor(pgns, Word(0), 2);
    OneAncestor(pgns, Word(0), 3);
    OneAncestor(pgns, Word(0), 4);
    CountFlags(pgns, Word(0));
  }

  lemma OneAncestor(pgns: set<bv64>, some: bv64, k: nat)
    requires 1 <= k <= 4 && (forall g <- pgns :: g < 512) && some in pgns
    ensures |Ancestors(pgns, k)| == 1
  {
    hide *;
    SmallAncestors(pgns, some, k);
  }

  lemma CountFlags(pgns: set<bv64>, some: bv64)
    requires (forall g <- pgns :: g < 512) && some in pgns
    ensures Flags(FlagsFor(PathsOf(pgns))) == |pgns| + 4
  {
    hide FlagsFor, PathsOf;
    SmallFlags(pgns, some);
  }

  lemma NoPages()
    ensures Ancestors({}, 1) == Ancestors({}, 2) == Ancestors({}, 3) == Ancestors({}, 4) == {} && FlagsFor(PathsOf({})) == UNUSED
  {}
}
