/** The page-table calls by page number: a run of them is a flat map from page to 32-bit entry. */
module PageMap {
  import opened Pte
  import opened PageTable
  import opened Paging
  import opened Accounting

  /** The calls of src/mm64.c with their arguments; `MultiLevelHelper` is CountLevels. */
  datatype Call =
    | SetFrame(pgn: bv64, fpn: bv64)
    | SetSwapped(pgn: bv64, typ: bv64, off: bv64)
    | SetWhole(pgn: bv64, val: bv64)
    | GetEntry(pgn: bv64)
    | CountLevels(pgn: bv64)

  function AsOp(c: Call): Op {
    match c
    case SetFrame(pgn, fpn) => PteSetFpn(pgn, fpn)
    case SetSwapped(pgn, typ, off) => PteSetSwap(pgn, typ, off)
    case SetWhole(pgn, val) => PteSetEntry(pgn, val)
    case GetEntry(pgn) => Fetch(PdFromPagenum(pgn))
    case CountLevels(pgn) => Helper(PdFromPagenum(pgn))
  }

  function AsOps(cs: seq<Call>): (ops: seq<Op>)
    ensures |ops| == |cs|
  {
    if cs == [] then [] else AsOps(cs[..|cs| - 1]) + [AsOp(cs[|cs| - 1])]
  }

  function EntryOf(ts: Tables, pgn: bv64): bv64 { Lookup(ts.tree, PdFromPagenum(pgn)) }

  /** The value that `pte_get_entry` returns: the entry converted to uint32_t. */
  function Returned(ts: Tables, pgn: bv64): bv64 { EntryOf(ts, pgn) & LOW32 }

  /** A page, named by the 45 bits that the five indices take from its number. */
  datatype Page = Page(number: bv64)

  function PageOf(pgn: bv64): Page { Page(pgn & PGN_BITS) }

  /** What the call makes of the entry of its own page. */
  function NewEntry(e: bv64, c: Call): bv64 {
    match c
    case SetFrame(_, fpn) => SetFpn(e, fpn)
    case SetSwapped(_, typ, off) => SetSwap(e, typ, off)
    case SetWhole(_, val) => val & LOW32
    case _ => e
  }

  /** The reference: a map from 45-bit page numbers, in which a call rewrites one page. */
  function FlatPages(cs: seq<Call>): map<Page, bv64> {
    if cs == [] then map[]
    else
      var m, c := FlatPages(cs[..|cs| - 1]), cs[|cs| - 1];
      m[PageOf(c.pgn) := NewEntry(FlatPage(m, c.pgn), c)]
  }

  function FlatPage(m: map<Page, bv64>, pgn: bv64): bv64 {
    if PageOf(pgn) in m then m[PageOf(pgn)] else 0
  }

  lemma AsOpMeans(c: Call, e: bv64)
    ensures AsOp(c).path == PdFromPagenum(c.pgn) && EntryAfter(e, AsOp(c)) == NewEntry(e, c)
  {
    hide PdFromPagenum, SetFpn, SetSwap;
  }

  lemma CallEntry(ts: Tables, c: Call, pgn: bv64)
    requires Wf(ts.tree)
    ensures EntryOf(Do(ts, AsOp(c)), pgn) == if PageOf(pgn) == PageOf(c.pgn) then NewEntry(EntryOf(ts, pgn), c) else EntryOf(ts, pgn)
  {
    hide PdFromPagenum, Lookup, Do, AsOp, NewEntry, EntryAfter, Wf, PageOf;
    AsOpMeans(c, EntryOf(ts, pgn));
    DoEntries(ts, AsOp(c), PdFromPagenum(pgn));
    SamePathSamePage(pgn, c.pgn);
  }

  lemma SamePathSamePage(p: bv64, q: bv64)
    ensures PdFromPagenum(p) == PdFromPagenum(q) <==> PageOf(p) == PageOf(q)
  {
    hide PdFromPagenum;
    PathInjective(p, q);
  }

  predicate Fits32(e: bv64) { e & LOW32 == e }

  lemma Narrow(e: bv64, c: Call)
    requires Fits32(e)
    ensures Fits32(NewEntry(e, c))
  {
    match c
    case SetFrame(_, fpn) => NarrowFpn(e, fpn);
    case SetSwapped(_, typ, off) => NarrowSwap(e, typ, off);
    case SetWhole(_, val) => NarrowWhole(val);
    case _ =>
  }

  lemma NarrowFpn(e: bv64, fpn: bv64)
    ensures SetFpn(e, fpn) & LOW32 == SetFpn(e, fpn)
  {
    MaskValues();
  }

  lemma NarrowSwap(e: bv64, typ: bv64, off: bv64)
    ensures SetSwap(e, typ, off) & LOW32 == SetSwap(e, typ, off)
  {
    MaskValues();
  }

  lemma NarrowWhole(val: bv64)
    ensures (val & LOW32) & LOW32 == val & LOW32
  {}

  lemma {:induction false} RunPages(cs: seq<Call>, pgn: bv64)
    ensures EntryOf(Run(AsOps(cs)), pgn) == FlatPage(FlatPages(cs), pgn) && Fits32(EntryOf(Run(AsOps(cs)), pgn))
  {
    hide EntryOf, Do, PageOf, AsOp, NewEntry, Run, AsOps, Fits32;
    RunStep(cs);
    if cs == [] {
      EmptyEntry(pgn);
    } else {
      var shorter, c := cs[..|cs| - 1], cs[|cs| - 1];
      RunPages(shorter, pgn);
      CallEntry(Run(AsOps(shorter)), c, pgn);
      FlatStep(cs, pgn);
      Narrow(EntryOf(Run(AsOps(shorter)), pgn), c);
    }
  }

  // After any run of calls, `pte_get_entry` returns for every page what the flat map says, and
  // the conversion to 32 bits loses nothing. Page numbers above 2^45 alias their low 45 bits.
  lemma PagesRefined(cs: seq<Call>, pgn: bv64)
    ensures Returned(Run(AsOps(cs)), pgn) == EntryOf(Run(AsOps(cs)), pgn) == FlatPage(FlatPages(cs), pgn)
  {
    RunPages(cs, pgn);
  }

  // Set, then get: the page decodes to its frame exactly when the frame number has 13 bits, and
  // every other page reads as before.
  lemma FrameReadBack(cs: seq<Call>, pgn: bv64, fpn: bv64, q: bv64)
    ensures var before, after := Run(AsOps(cs)), Run(AsOps(cs + [SetFrame(pgn, fpn)]));
            if PageOf(q) == PageOf(pgn) then
              Present(Returned(after, q)) && !Swapped(Returned(after, q)) && (Fpn(Returned(after, q)) == fpn <==> fpn < 8192)
            else Returned(after, q) == Returned(before, q)
  {
    var ds := cs + [SetFrame(pgn, fpn)];
    assert ds[..|ds| - 1] == cs;
    hide EntryOf, Run, AsOps, PageOf, FlatPages, Present, Swapped, Fpn, SetFpn;
    PagesRefined(cs, q);
    PagesRefined(ds, q);
    FlatStep(ds, q);
    SetFpnDecodes(FlatPage(FlatPages(cs), q), fpn);
    FpnRoundTrip(FlatPage(FlatPages(cs), q), fpn);
  }

  lemma CallReadBack(cs: seq<Call>, c: Call, q: bv64)
    ensures var before, after := Returned(Run(AsOps(cs)), q), Returned(Run(AsOps(cs + [c])), q);
            after == if PageOf(q) == PageOf(c.pgn) then NewEntry(before, c) else before
  {
    var ds := cs + [c];
    assert ds[..|ds| - 1] == cs;
    hide EntryOf, Returned, Run, AsOps, PageOf, FlatPages, FlatPage, NewEntry;
    PagesRefined(cs, q);
    PagesRefined(ds, q);
    FlatStep(ds, q);
  }

  // What the other calls leave behind, for their own page and for every other.
  lemma SwapReadBack(cs: seq<Call>, pgn: bv64, typ: bv64, off: bv64, q: bv64)
    ensures var before, after := Returned(Run(AsOps(cs)), q), Returned(Run(AsOps(cs + [SetSwapped(pgn, typ, off)])), q);
            if PageOf(q) == PageOf(pgn) then
              Present(after) && Swapped(after) && SwpTyp(after) == typ & 0x1f && Swp(after) == off & 0x1f_ffff
            else after == before
  {
    CallReadBack(cs, SetSwapped(pgn, typ, off), q);
    hide Returned, Run, AsOps, PageOf, Present, Swapped, SwpTyp, Swp, SetSwap;
    var before := Returned(Run(AsOps(cs)), q);
    SetSwapDecodes(before, typ, off);
    SetSwapType(before, typ, off);
    SetSwapOffset(before, typ, off);
  }

  lemma WholeReadBack(cs: seq<Call>, pgn: bv64, val: bv64, q: bv64)
    ensures var before, after := Returned(Run(AsOps(cs)), q), Returned(Run(AsOps(cs + [SetWhole(pgn, val)])), q);
            after == if PageOf(q) == PageOf(pgn) then val & 0xffff_ffff else before
  {
    CallReadBack(cs, SetWhole(pgn, val), q);
    hide Returned, Run, AsOps, PageOf;
  }

  // Reading a page, and counting its levels, changes what no page reads.
  lemma ReadsChangeNothing(cs: seq<Call>, c: Call, q: bv64)
    requires c.GetEntry? || c.CountLevels?
    ensures Returned(Run(AsOps(cs + [c])), q) == Returned(Run(AsOps(cs)), q)
  {
    CallReadBack(cs, c, q);
    hide Returned, Run, AsOps, PageOf;
  }

  lemma RunStep(cs: seq<Call>)
    ensures Run(AsOps(cs)) == if cs == [] then NEW_TABLES else Do(Run(AsOps(cs[..|cs| - 1])), AsOp(cs[|cs| - 1]))
  {
    hide Do, AsOp;
    if cs != [] {
      assert AsOps(cs)[..|cs| - 1] == AsOps(cs[..|cs| - 1]);
    }
  }

  lemma FlatStep(cs: seq<Call>, pgn: bv64)
    requires cs != []
    ensures var m, c := FlatPages(cs[..|cs| - 1]), cs[|cs| - 1];
            FlatPage(FlatPages(cs), pgn) == if PageOf(pgn) == PageOf(c.pgn) then NewEntry(FlatPage(m, pgn), c) else FlatPage(m, pgn)
  {
    hide PageOf, NewEntry;
  }

  lemma EmptyEntry(pgn: bv64)
    ensures EntryOf(NEW_TABLES, pgn) == 0 && Fits32(0)
  {}

  // ---------- the counters ----------

  /** What `byte_counter` must show. */
  function Bytes(ts: Tables): int { TABLE_BYTES * (|ts.tree.tables| - 1) + 8 * Flags(ts.used) }

  /** The flags set by helping some paths. */
  function FlagsFor(ps: set<Path>): Used {
    Used(set p | p in ps :: p.pgd, set p | p in ps :: p.p4d, set p | p in ps :: p.pud, set p | p in ps :: p.pmd,
         set p | p in ps :: p.pt)
  }

  lemma FlagsAdd(ps: set<Path>, p: Path)
    ensures Flagged(FlagsFor(ps), p) == FlagsFor(ps + {p})
  {
    var u, v := Flagged(FlagsFor(ps), p), FlagsFor(ps + {p});
    assert u.pgd == v.pgd;
    assert u.p4d == v.p4d;
    assert u.pud == v.pud;
    assert u.pmd == v.pmd;
    assert u.pt == v.pt;
  }

  lemma {:induction false} RunFlags(ops: seq<Op>)
    ensures Run(ops).used == FlagsFor(Helped(ops))
  {
    hide TreeAfter, Flagged, FlagsFor, Wf;
    if ops == [] {
      NoFlags();
    } else {
      var shorter, op := ops[..|ops| - 1], ops[|ops| - 1];
      RunFlags(shorter);
      FlagsAdd(Helped(shorter), op.path);
      assert Helped(shorter) + {} == Helped(shorter);
    }
  }

  lemma NoFlags()
    ensures FlagsFor({}) == UNUSED
  {}

  /** The page numbers that the calls of a run walked, and those given to `MultiLevelHelper`. */
  function WalkedPages(cs: seq<Call>): set<bv64> { set c | c in cs && !c.CountLevels? :: c.pgn }
  function CountedPages(cs: seq<Call>): set<bv64> { set c | c in cs && c.CountLevels? :: c.pgn }

  lemma {:induction false} CallPaths(cs: seq<Call>)
    ensures Walks(AsOps(cs)) == PathsOf(WalkedPages(cs)) && Helped(AsOps(cs)) == PathsOf(CountedPages(cs))
  {
    hide PdFromPagenum, AsOp, WalkedPages, CountedPages, PathsOf;
    PagesStep(cs);
    if cs == [] {
    } else {
      var shorter, c := cs[..|cs| - 1], cs[|cs| - 1];
      CallPaths(shorter);
      assert AsOps(cs)[..|cs| - 1] == AsOps(shorter);
      AsOpMeans(c, 0);
      AsOpKind(c);
      PathsAdd(WalkedPages(shorter), c.pgn);
      PathsAdd(CountedPages(shorter), c.pgn);
    }
  }

  lemma AsOpKind(c: Call)
    ensures AsOp(c).Helper? <==> c.CountLevels?
  {}

  lemma PagesStep(cs: seq<Call>)
    ensures cs == [] ==> PathsOf(WalkedPages(cs)) == {} && PathsOf(CountedPages(cs)) == {}
    ensures cs != [] ==>
              var shorter, c := cs[..|cs| - 1], cs[|cs| - 1];
              && WalkedPages(cs) == (if c.CountLevels? then WalkedPages(shorter) else WalkedPages(shorter) + {c.pgn})
              && CountedPages(cs) == (if c.CountLevels? then CountedPages(shorter) + {c.pgn} else CountedPages(shorter))
  {
    hide PdFromPagenum;
    if cs != [] {
      assert cs == cs[..|cs| - 1] + [cs[|cs| - 1]];
    }
  }

  // The counter of a process in terms of the calls alone: 4096 bytes for every distinct prefix
  // of the pages walked, and 8 for every distinct index, level by level, of the pages counted.
  lemma ByteCount(cs: seq<Call>)
    ensures var walked, counted := WalkedPages(cs), FlagsFor(PathsOf(CountedPages(cs)));
            Bytes(Run(AsOps(cs))) ==
            4096 * (|Ancestors(walked, 1)| + |Ancestors(walked, 2)| + |Ancestors(walked, 3)| + |Ancestors(walked, 4)|)
            + 8 * Flags(counted)
  {
    hide Ancestors, FlagsFor, Flags, PathsOf;
    CallPaths(cs);
    TableCount(AsOps(cs), WalkedPages(cs));
    RunFlags(AsOps(cs));
  }

  // ---------- g_total_storage_bytes ----------

  /** All processes' tables and the system-wide counter; `init_mm` adds a process and its PGD. */
  datatype Kernel = Kernel(procs: seq<Tables>, storage: int)

  datatype KernelOp = NewProcess | On(p: nat, op: Op)

  const NO_PROCS: seq<Tables> := []

  /** The tables that a call allocates, one for each empty word its walk meets. */
  function NewTables(t: Tree, op: Op): nat
    requires Wf(t)
  {
    if op.Helper? then 0 else Allocations(t, 0, Upper(op.path))
  }

  lemma NewTablesCount(ts: Tables, op: Op)
    requires Wf(ts.tree)
    ensures |Do(ts, op).tree.tables| == |ts.tree.tables| + NewTables(ts.tree, op)
  {
    AllocationsCount(ts.tree, 0, Upper(op.path));
    hide Upper, Wf, Built, Allocations, Lookup;
  }

  /**
   * A run of the kernel. A walk adds 4096 to the counter whenever it allocates a table, as
   * `PageWalk.PageTables.NextTable` does; a call by a process that does not exist changes nothing.
   */
  function KernelRun(ops: seq<KernelOp>): (k: Kernel)
    ensures forall p :: 0 <= p < |k.procs| ==> Wf(k.procs[p].tree)
  {
    if ops == [] then Kernel(NO_PROCS, 0)
    else
      var k := KernelRun(ops[..|ops| - 1]);
      match ops[|ops| - 1]
      case NewProcess => Kernel(k.procs + [NEW_TABLES], k.storage + TABLE_BYTES)
      case On(p, op) =>
        if p >= |k.procs| then k
        else
          Kernel(k.procs[p := Do(k.procs[p], op)], k.storage + TABLE_BYTES * NewTables(k.procs[p].tree, op))
  }

  function AllTables(procs: seq<Tables>): int {
    if procs == [] then 0 else |procs[0].tree.tables| + AllTables(procs[1..])
  }

  lemma {:induction false} TablesUpdate(procs: seq<Tables>, p: nat, ts: Tables)
    requires p < |procs|
    ensures AllTables(procs[p := ts]) == AllTables(procs) + |ts.tree.tables| - |procs[p].tree.tables|
  {
    if p == 0 {
      assert procs[p := ts][1..] == procs[1..];
    } else {
      assert procs[p := ts][1..] == procs[1..][p - 1 := ts];
      TablesUpdate(procs[1..], p - 1, ts);
    }
  }

  lemma {:induction false} TablesAppend(procs: seq<Tables>, ts: Tables)
    ensures AllTables(procs + [ts]) == AllTables(procs) + |ts.tree.tables|
  {
    if procs == [] {
      assert [] + [ts] == [ts] && [ts][1..] == [];
    } else {
      assert (procs + [ts])[0] == procs[0] && (procs + [ts])[1..] == procs[1..] + [ts];
      TablesAppend(procs[1..], ts);
    }
  }

  // The system-wide counter is 4096 times all tables, one PGD per process included.
  lemma {:induction false} StorageTotal(ops: seq<KernelOp>)
    ensures KernelRun(ops).storage == TABLE_BYTES * AllTables(KernelRun(ops).procs)
  {
    hide Do, NewTables;
    if ops == [] {
    } else {
      StorageTotal(ops[..|ops| - 1]);
      var k := KernelRun(ops[..|ops| - 1]);
      TablesAppend(k.procs, NEW_TABLES);
      match ops[|ops| - 1]
      case NewProcess =>
      case On(p, op) =>
        if p < |k.procs| {
          NewTablesCount(k.procs[p], op);
          TablesUpdate(k.procs, p, Do(k.procs[p], op));
        }
    }
  }
}
