/**
 * The page-table operations of src/mm64.c as calls on one process's tables: what a run of them
 * does to the entries, how many tables it allocates and what its counters say.
 */
module Paging {
  import opened Pte
  import opened PageTable

  const TABLE_BYTES := 4096  // TABLE_SIZE_64 words of eight bytes

  /** The `used_*` flag arrays, as the set of indices whose flag is 1. */
  datatype Used = Used(pgd: set<bv64>, p4d: set<bv64>, pud: set<bv64>, pmd: set<bv64>, pt: set<bv64>)

  const UNUSED := Used({}, {}, {}, {}, {})

  function Flags(u: Used): nat { |u.pgd| + |u.p4d| + |u.pud| + |u.pmd| + |u.pt| }

  function Flagged(u: Used, p: Path): Used {
    Used(u.pgd + {p.pgd}, u.p4d + {p.p4d}, u.pud + {p.pud}, u.pmd + {p.pmd}, u.pt + {p.pt})
  }

  datatype Tables = Tables(tree: Tree, used: Used)

  const NEW_TABLES := Tables(EMPTY_TREE, UNUSED)

  /**
   * One call: `pte_set_fpn`, `pte_set_swap` and `pte_set_entry` store an update of the entry at
   * the page's path, `pte_get_entry` only walks there, `MultiLevelHelper` only sets flags.
   */
  datatype Op = Store(path: Path, update: bv64 -> bv64) | Fetch(path: Path) | Helper(path: Path)

  function PteSetFpn(pgn: bv64, fpn: bv64): Op { Store(PdFromPagenum(pgn), e => SetFpn(e, fpn)) }

  function PteSetSwap(pgn: bv64, typ: bv64, off: bv64): Op { Store(PdFromPagenum(pgn), e => SetSwap(e, typ, off)) }

  function PteSetEntry(pgn: bv64, val: bv64): Op { Store(PdFromPagenum(pgn), e => val & LOW32) }

  function EntryAfter(e: bv64, op: Op): bv64 {
    if op.Store? then op.update(e) else e
  }

  function TreeAfter(t: Tree, op: Op): Tree
    requires Wf(t)
  {
    match op
    case Store(p, update) => Stored(t, p, update(Lookup(t, p)))
    case Fetch(p) => Walked(t, p)
    case Helper(_) => t
  }

  lemma TreeAfterEntries(t: Tree, op: Op, q: Path)
    requires Wf(t)
    ensures var u := TreeAfter(t, op);
            && Wf(u) && |t.tables| <= |u.tables|
            && Lookup(u, q) == if q == op.path then EntryAfter(Lookup(t, q), op) else Lookup(t, q)
  {
    match op
    case Store(p, update) => StoredChangesOne(t, p, update(Lookup(t, p)), q);
    case Fetch(p) => WalkedKeepsEntries(t, p, q);
    case Helper(_) =>
  }

  function Do(ts: Tables, op: Op): (r: Tables)
    requires Wf(ts.tree)
    ensures Wf(r.tree)
  {
    TreeAfterEntries(ts.tree, op, op.path);
    Tables(TreeAfter(ts.tree, op), if op.Helper? then Flagged(ts.used, op.path) else ts.used)
  }

  // A call rewrites the entry at its own path and no other.
  lemma DoEntries(ts: Tables, op: Op, q: Path)
    requires Wf(ts.tree)
    ensures Lookup(Do(ts, op).tree, q) == if q == op.path then EntryAfter(Lookup(ts.tree, q), op) else Lookup(ts.tree, q)
    ensures |ts.tree.tables| <= |Do(ts, op).tree.tables|
  {
    hide TreeAfter, Lookup, EntryAfter, Flagged;
    TreeAfterEntries(ts.tree, op, q);
  }

  function Run(ops: seq<Op>): (ts: Tables)
    ensures Wf(ts.tree)
  {
    if ops == [] then NEW_TABLES else Do(Run(ops[..|ops| - 1]), ops[|ops| - 1])
  }

  /** The flat map from path to entry that the tree stands for. */
  function FlatRun(ops: seq<Op>): map<Path, bv64> {
    if ops == [] then map[]
    else
      var m, op := FlatRun(ops[..|ops| - 1]), ops[|ops| - 1];
      m[op.path := EntryAfter(FlatGet(m, op.path), op)]
  }

  function FlatGet(m: map<Path, bv64>, p: Path): bv64 {
    if p in m then m[p] else 0
  }

  // Over every run the radix tree behaves as the flat map.
  lemma {:induction false} TreeRefinesFlatMap(ops: seq<Op>, q: Path)
    ensures Lookup(Run(ops).tree, q) == FlatGet(FlatRun(ops), q)
  {
    if ops == [] {
    } else {
      var shorter, op := ops[..|ops| - 1], ops[|ops| - 1];
      TreeRefinesFlatMap(shorter, q);
      DoEntries(Run(shorter), op, q);
    }
  }
}
