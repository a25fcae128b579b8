/**
 * The lazily allocated five-level page table of src/mm64.c. Tables are numbered in the order
 * they are allocated (0 is the PGD); a word of a table at depth 0..3 holds a link to a deeper
 * table, a word of a table at depth 4 (a PT) holds an entry. A word that is in neither map is 0.
 */
module PageTable {
  import opened Words
  import opened Pte

  type Slot = (nat, bv64)

  /** How deep a table lies, and the word it was hung from when it was allocated. */
  datatype Table = Table(depth: nat, parent: Slot)

  datatype Tree = Tree(tables: seq<Table>, link: map<Slot, nat>, entry: map<Slot, bv64>)

  const EMPTY_TREE := Tree([Table(0, (0, 0))], map[], map[])

  ghost predicate Wf(t: Tree) {
    && |t.tables| > 0 && t.tables[0].depth == 0
    && (forall k <- t.link :: LinkOk(t, k))
    && (forall k <- t.entry :: k.0 < |t.tables| && t.tables[k.0].depth == 4)
  }

  ghost predicate LinkOk(t: Tree, k: Slot)
    requires k in t.link
  {
    && k.0 < |t.tables| && 0 < t.link[k] < |t.tables|
    && t.tables[k.0].depth < 4 && t.tables[t.link[k]] == Table(t.tables[k.0].depth + 1, k)
  }

  /** The indices that lead from the PGD to a PT. */
  function Upper(p: Path): (path: seq<bv64>)
    ensures |path| == 4
  {
    [p.pgd, p.p4d, p.pud, p.pmd]
  }

  /** The table reached from table `id` along `path`, if every link on the way exists. */
  function Follow(t: Tree, id: nat, path: seq<bv64>): Option<nat>
    decreases |path|
  {
    if path == [] then Some(id)
    else if (id, path[0]) in t.link then Follow(t, t.link[(id, path[0])], path[1..])
    else None
  }

  function EntryAt(t: Tree, path: seq<bv64>, i: bv64): bv64 {
    match Follow(t, 0, path)
    case None => 0
    case Some(pt) => if (pt, i) in t.entry then t.entry[(pt, i)] else 0
  }

  /** The entry at the end of a path as hardware would see it, without allocating anything. */
  function Lookup(t: Tree, p: Path): bv64 {
    EntryAt(t, Upper(p), p.pt)
  }

  /** One level of `pteTravelling`: allocate a zeroed table behind an empty word. */
  function Grown(t: Tree, id: nat, i: bv64): Tree
    requires id < |t.tables|
  {
    if (id, i) in t.link then t
    else t.(tables := t.tables + [Table(t.tables[id].depth + 1, (id, i))], link := t.link[(id, i) := |t.tables|])
  }

  lemma GrownWf(t: Tree, id: nat, i: bv64)
    requires Wf(t) && id < |t.tables| && t.tables[id].depth < 4
    ensures var u := Grown(t, id, i);
            && Wf(u) && Extends(t, u) && (id, i) in u.link && u.tables[u.link[(id, i)]].depth == t.tables[id].depth + 1
  {
    var u := Grown(t, id, i);
    forall k <- u.link
      ensures LinkOk(u, k)
    {
      assert k == (id, i) || LinkOk(t, k);
    }
  }

  /** The tree after walking `path` from table `id`. */
  function Built(t: Tree, id: nat, path: seq<bv64>): Tree
    requires Wf(t) && id < |t.tables| && t.tables[id].depth + |path| <= 4
    decreases |path|
  {
    if path == [] then t
    else
      GrownWf(t, id, path[0]);
      var u := Grown(t, id, path[0]);
      Built(u, u.link[(id, path[0])], path[1..])
  }

  /** How many levels of the walk find an empty word and allocate a table. */
  function Allocations(t: Tree, id: nat, path: seq<bv64>): nat
    requires Wf(t) && id < |t.tables| && t.tables[id].depth + |path| <= 4
    decreases |path|
  {
    if path == [] then 0
    else
      GrownWf(t, id, path[0]);
      var u := Grown(t, id, path[0]);
      (if (id, path[0]) in t.link then 0 else 1) + Allocations(u, u.link[(id, path[0])], path[1..])
  }

  lemma {:induction false} AllocationsCount(t: Tree, id: nat, path: seq<bv64>)
    requires Wf(t) && id < |t.tables| && t.tables[id].depth + |path| <= 4
    ensures |Built(t, id, path).tables| == |t.tables| + Allocations(t, id, path)
    decreases |path|
  {
    if path == [] {
    } else {
      GrownWf(t, id, path[0]);
      var u := Grown(t, id, path[0]);
      AllocationsCount(u, u.link[(id, path[0])], path[1..]);
    }
  }

  /** `u` has all of `t`, the same entries, and new links lead to new tables only. */
  ghost predicate Extends(t: Tree, u: Tree) {
    && t.tables <= u.tables
    && u.entry == t.entry
    && (forall k <- t.link :: k in u.link && u.link[k] == t.link[k])
    && (forall k <- u.link :: k !in t.link ==> u.link[k] >= |t.tables|)
  }

  lemma {:induction false} BuiltExtends(t: Tree, id: nat, path: seq<bv64>)
    requires Wf(t) && id < |t.tables| && t.tables[id].depth + |path| <= 4
    ensures Wf(Built(t, id, path)) && Extends(t, Built(t, id, path))
    ensures Follow(Built(t, id, path), id, path).Some?
    decreases |path|
  {
    if path == [] {
    } else {
      GrownWf(t, id, path[0]);
      var u := Grown(t, id, path[0]);
      BuiltExtends(u, u.link[(id, path[0])], path[1..]);
    }
  }

  // Links that exist keep leading where they led; a path completed by new tables ends in a new one.
  lemma {:induction false} FollowExtended(t: Tree, u: Tree, id: nat, path: seq<bv64>)
    requires Wf(t) && Wf(u) && Extends(t, u) && id < |u.tables|
    ensures var a, b := Follow(t, id, path), Follow(u, id, path);
            && (id < |t.tables| && a.Some? ==> b == a && a.value < |t.tables|)
            && (id >= |t.tables| || a.None? ==> b.None? || |t.tables| <= b.value < |u.tables|)
    decreases |path|
  {
    if path != [] && (id, path[0]) in u.link {
      FollowExtended(t, u, u.link[(id, path[0])], path[1..]);
    }
  }

  lemma EntriesExtended(t: Tree, u: Tree, path: seq<bv64>, i: bv64)
    requires Wf(t) && Wf(u) && Extends(t, u)
    ensures EntryAt(u, path, i) == EntryAt(t, path, i)
  {
    FollowExtended(t, u, 0, path);
  }

  lemma {:induction false} FollowDepth(t: Tree, id: nat, path: seq<bv64>)
    requires Wf(t) && id < |t.tables| && Follow(t, id, path).Some?
    ensures var x := Follow(t, id, path).value;
            x < |t.tables| && t.tables[x].depth == t.tables[id].depth + |path| && (path != [] ==> x != 0)
    decreases |path|
  {
    if path == [] {
    } else {
      FollowDepth(t, t.link[(id, path[0])], path[1..]);
    }
  }

  // No table is reached along two index paths, of whatever lengths.
  lemma UniquePath(t: Tree, p: seq<bv64>, q: seq<bv64>)
    requires Wf(t) && Follow(t, 0, p).Some? && Follow(t, 0, p) == Follow(t, 0, q)
    ensures p == q
  {
    FollowDepth(t, 0, p);
    FollowDepth(t, 0, q);
    FollowInjective(t, 0, p, 0, q);
  }

  lemma {:induction false} FollowInjective(t: Tree, a: nat, p: seq<bv64>, b: nat, q: seq<bv64>)
    requires Wf(t) && |p| == |q|
    requires Follow(t, a, p).Some? && Follow(t, a, p) == Follow(t, b, q)
    ensures a == b && p == q
    decreases |p|
  {
    if p == [] {
    } else {
      FollowInjective(t, t.link[(a, p[0])], p[1..], t.link[(b, q[0])], q[1..]);
      assert p == [p[0]] + p[1..] && q == [q[0]] + q[1..];
    }
  }

  /** The tree after storing `v` through the pointer that a walk along `path` returns. */
  function StoredAt(t: Tree, path: seq<bv64>, i: bv64, v: bv64): Tree
    requires Wf(t) && |path| == 4
  {
    var u := Built(t, 0, path);
    BuiltExtends(t, 0, path);
    u.(entry := u.entry[(Follow(u, 0, path).value, i) := v])
  }

  lemma PutWf(t: Tree, k: Slot, v: bv64)
    requires Wf(t) && k.0 < |t.tables| && t.tables[k.0].depth == 4
    ensures Wf(t.(entry := t.entry[k := v]))
  {}

  lemma StoredAtChangesOne(t: Tree, path: seq<bv64>, i: bv64, v: bv64, p: seq<bv64>, j: bv64)
    requires Wf(t) && |path| == 4 && |p| == 4
    ensures Wf(StoredAt(t, path, i, v)) && |t.tables| <= |StoredAt(t, path, i, v).tables|
    ensures EntryAt(StoredAt(t, path, i, v), p, j) == if p == path && j == i then v else EntryAt(t, p, j)
  {
    var u := Built(t, 0, path);
    BuiltExtends(t, 0, path);
    FollowDepth(u, 0, path);
    PutWf(u, (Follow(u, 0, path).value, i), v);
    FollowSameLinks(u, StoredAt(t, path, i, v), 0, p);
    EntriesExtended(t, u, p, j);
    SamePtSamePath(u, p, path);
  }

  lemma SamePtSamePath(t: Tree, p: seq<bv64>, q: seq<bv64>)
    requires Wf(t) && Follow(t, 0, q).Some?
    ensures Follow(t, 0, p) == Follow(t, 0, q) <==> p == q
  {
    if Follow(t, 0, p) == Follow(t, 0, q) {
      UniquePath(t, p, q);
    }
  }

  lemma {:induction false} FollowSameLinks(t: Tree, u: Tree, id: nat, path: seq<bv64>)
    requires t.link == u.link
    ensures Follow(t, id, path) == Follow(u, id, path)
    decreases |path|
  {
    if path != [] && (id, path[0]) in t.link {
      FollowSameLinks(t, u, t.link[(id, path[0])], path[1..]);
    }
  }

  function Walked(t: Tree, p: Path): Tree
    requires Wf(t)
  {
    Built(t, 0, Upper(p))
  }

  function Stored(t: Tree, p: Path, v: bv64): Tree
    requires Wf(t)
  {
    StoredAt(t, Upper(p), p.pt, v)
  }

  // Walking changes no entry, however many tables it allocates.
  lemma WalkedKeepsEntries(t: Tree, p: Path, q: Path)
    requires Wf(t)
    ensures Wf(Walked(t, p)) && |t.tables| <= |Walked(t, p).tables|
    ensures Lookup(Walked(t, p), q) == Lookup(t, q)
  {
    BuiltExtends(t, 0, Upper(p));
    EntriesExtended(t, Walked(t, p), Upper(q), q.pt);
  }

  // Storing through the walked pointer changes the entry at its own path and no other.
  lemma StoredChangesOne(t: Tree, p: Path, v: bv64, q: Path)
    requires Wf(t)
    ensures Wf(Stored(t, p, v)) && |t.tables| <= |Stored(t, p, v).tables|
    ensures Lookup(Stored(t, p, v), q) == if q == p then v else Lookup(t, q)
  {
    StoredAtChangesOne(t, Upper(p), p.pt, v, Upper(q), q.pt);
    SamePath(p, q);
  }

  lemma SamePath(p: Path, q: Path)
    ensures Upper(p) == Upper(q) && p.pt == q.pt <==> p == q
  {
    var s, r := Upper(p), Upper(q);
    assert s == r ==> s[0] == r[0] && s[1] == r[1] && s[2] == r[2] && s[3] == r[3];
  }
}
