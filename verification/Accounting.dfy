/** How many tables a run of page-table operations allocates, and what `byte_counter` says. */
module Accounting {
  import opened Words
  import opened Pte
  import opened PageTable
  import opened Paging

  /** `w` lists the non-empty index paths that lead to a table of `t`, one per table but the PGD. */
  ghost predicate Listed(t: Tree, w: set<seq<bv64>>) {
    && [] !in w && |t.tables| == |w| + 1
    && (forall path :: Follow(t, 0, path).Some? <==> path == [] || path in w)
  }

  lemma {:induction false} FollowAppend(t: Tree, id: nat, p: seq<bv64>, i: bv64)
    requires Follow(t, id, p).Some?
    ensures var x := Follow(t, id, p).value;
            Follow(t, id, p + [i]) == if (x, i) in t.link then Some(t.link[(x, i)]) else None
    decreases |p|
  {
    assert p != [] ==> (p + [i])[0] == p[0] && (p + [i])[1..] == p[1..] + [i];
    if p != [] {
      FollowAppend(t, t.link[(id, p[0])], p[1..], i);
    } else {
      assert p + [i] == [i];
    }
  }

  lemma GrownListed(t: Tree, w: set<seq<bv64>>, p: seq<bv64>, id: nat, i: bv64)
    requires Wf(t) && Listed(t, w) && Follow(t, 0, p) == Some(id) && id < |t.tables| && t.tables[id].depth < 4
    ensures Wf(Grown(t, id, i)) && Listed(Grown(t, id, i), w + {p + [i]})
    ensures Follow(Grown(t, id, i), 0, p + [i]) == Some(Grown(t, id, i).link[(id, i)])
  {
    var u := Grown(t, id, i);
    GrownWf(t, id, i);
    FollowAppend(t, 0, p, i);
    FollowExtended(t, u, 0, p);
    FollowAppend(u, 0, p, i);
    forall q
      ensures Follow(u, 0, q).Some? <==> q == [] || q in w + {p + [i]}
    {
      FollowExtended(t, u, 0, q);
      if Follow(u, 0, q).Some? && Follow(t, 0, q).None? {
        UniquePath(u, q, p + [i]);
      }
    }
    assert (id, i) in t.link ==> w + {p + [i]} == w;
  }

  /** The paths of the tables that a walk along `path` passes, when it starts at path `p`. */
  function Stops(p: seq<bv64>, path: seq<bv64>): set<seq<bv64>>
    decreases |path|
  {
    if path == [] then {} else {p + [path[0]]} + Stops(p + [path[0]], path[1..])
  }

  lemma {:induction false} BuiltListed(t: Tree, w: set<seq<bv64>>, p: seq<bv64>, id: nat, path: seq<bv64>)
    requires Wf(t) && Listed(t, w) && Follow(t, 0, p) == Some(id)
    requires id < |t.tables| && t.tables[id].depth + |path| <= 4
    ensures Listed(Built(t, id, path), w + Stops(p, path))
    decreases |path|
  {
    if path != [] {
      GrownListed(t, w, p, id, path[0]);
      GrownWf(t, id, path[0]);
      var u, i := Grown(t, id, path[0]), path[0];
      BuiltListed(u, w + {p + [i]}, p + [i], u.link[(id, i)], path[1..]);
      assert w + {p + [i]} + Stops(p + [i], path[1..]) == w + Stops(p, path);
    } else {
      assert w + Stops(p, path) == w;
    }
  }

  /** The paths that the operations of a run walked. */
  function Walks(ops: seq<Op>): set<Path> {
    if ops == [] then {}
    else Walks(ops[..|ops| - 1]) + (if ops[|ops| - 1].Helper? then {} else {ops[|ops| - 1].path})
  }

  /** The pages whose flags `MultiLevelHelper` set. */
  function Helped(ops: seq<Op>): set<Path> {
    if ops == [] then {}
    else Helped(ops[..|ops| - 1]) + (if ops[|ops| - 1].Helper? then {ops[|ops| - 1].path} else {})
  }

  /** The distinct prefixes of length k of some paths. */
  function Level(ps: set<Path>, k: nat): set<seq<bv64>>
    requires k <= 4
  {
    set p | p in ps :: Upper(p)[..k]
  }

  function Prefixes(ps: set<Path>): set<seq<bv64>> {
    Level(ps, 1) + Level(ps, 2) + Level(ps, 3) + Level(ps, 4)
  }

  lemma {:induction false} RunListed(ops: seq<Op>)
    ensures Listed(Run(ops).tree, Prefixes(Walks(ops)))
  {
    if ops == [] {
      assert Prefixes({}) == {};
      assert forall path :: Follow(EMPTY_TREE, 0, path).Some? <==> path == [];
    } else {
      var shorter, op := ops[..|ops| - 1], ops[|ops| - 1];
      var t, w := Run(shorter).tree, Prefixes(Walks(shorter));
      RunListed(shorter);
      if op.Helper? {
        assert Walks(ops) == Walks(shorter);
      } else {
        BuiltListed(t, w, [], 0, Upper(op.path));
        StopsArePrefixes(Walks(shorter), op.path);
        if op.Store? {
          StoredListed(t, Prefixes(Walks(ops)), op.path, op.update(Lookup(t, op.path)));
        }
      }
    }
  }

  lemma StoredListed(t: Tree, w: set<seq<bv64>>, p: Path, v: bv64)
    requires Wf(t) && Listed(Walked(t, p), w)
    ensures Listed(Stored(t, p, v), w)
  {
    forall path
      ensures Follow(Stored(t, p, v), 0, path) == Follow(Walked(t, p), 0, path)
    {
      FollowSameLinks(Stored(t, p, v), Walked(t, p), 0, path);
    }
  }

  lemma StopsStep(u: seq<bv64>, j: nat)
    requires j < |u|
    ensures Stops(u[..j], u[j..]) == {u[..j + 1]} + Stops(u[..j + 1], u[j + 1..])
  {
    assert u[j..][1..] == u[j + 1..] && u[..j] + [u[j]] == u[..j + 1];
  }

  lemma StopsOfUpper(u: seq<bv64>)
    requires |u| == 4
    ensures Stops([], u) == {u[..1]} + {u[..2]} + {u[..3]} + {u[..4]}
  {
    assert u[..0] == [] && u[0..] == u;
    FourStops(u);
  }

  lemma FourStops(u: seq<bv64>)
    requires |u| == 4
    ensures Stops(u[..0], u[0..]) == {u[..1]} + {u[..2]} + {u[..3]} + {u[..4]}
  {
    hide Stops;
    NoStops(u[..4], u[4..]);
    StopsStep(u, 0);
    StopsStep(u, 1);
    StopsStep(u, 2);
    StopsStep(u, 3);
    UnionOfFour({u[..1]}, {u[..2]}, {u[..3]}, {u[..4]});
  }

  lemma UnionOfFour<T>(a: set<T>, b: set<T>, c: set<T>, d: set<T>)
    ensures a + (b + (c + (d + {}))) == a + b + c + d
  {}

  lemma NoStops(p: seq<bv64>, path: seq<bv64>)
    requires path == []
    ensures Stops(p, path) == {}
  {}

  lemma StopsArePrefixes(ps: set<Path>, p: Path)
    ensures Prefixes(ps) + Stops([], Upper(p)) == Prefixes(ps + {p})
  {
    hide Upper;
    StopsOfUpper(Upper(p));
    LevelAdd(ps, p, 1);
    LevelAdd(ps, p, 2);
    LevelAdd(ps, p, 3);
    LevelAdd(ps, p, 4);
  }

  lemma LevelAdd(ps: set<Path>, p: Path, k: nat)
    requires k <= 4
    ensures Level(ps + {p}, k) == Level(ps, k) + {Upper(p)[..k]}
  {}

  lemma LevelLength(ps: set<Path>, k: nat, path: seq<bv64>)
    requires k <= 4 && path in Level(ps, k)
    ensures |path| == k
  {}

  lemma LevelsDisjoint(ps: set<Path>)
    ensures |Prefixes(ps)| == |Level(ps, 1)| + |Level(ps, 2)| + |Level(ps, 3)| + |Level(ps, 4)|
  {
    forall j, k, path | 1 <= j <= 4 && 1 <= k <= 4 && path in Level(ps, j) && path in Level(ps, k)
      ensures j == k
    {
      LevelLength(ps, j, path);
      LevelLength(ps, k, path);
    }
    assert Level(ps, 1) !! Level(ps, 2);
    assert Level(ps, 1) + Level(ps, 2) !! Level(ps, 3);
    assert Level(ps, 1) + Level(ps, 2) + Level(ps, 3) !! Level(ps, 4);
  }

  /** The page number without its k lowest nine-bit fields. */
  function Ancestor(pgn: bv64, k: nat): bv64
    requires 1 <= k <= 4
  {
    var page := pgn & 0x1fff_ffff_ffff;
    if k == 1 then page >> 9 else if k == 2 then page >> 18 else if k == 3 then page >> 27 else page >> 36
  }

  /** `x` with the nine-bit digit `i` appended, and the two parts of such a number. */
  function Append(x: bv64, i: bv64): bv64 { (x << 9) | i }
  function Init(x: bv64): bv64 { x >> 9 }
  function Digit(x: bv64): bv64 { x & 0x1ff }

  lemma AppendUndone(x: bv64, i: bv64)
    requires x < 0x10_0000_0000 && i < 512
    ensures Init(Append(x, i)) == x && Digit(Append(x, i)) == i
  {}

  lemma AppendInjective(x: bv64, i: bv64, y: bv64, j: bv64)
    requires x < 0x10_0000_0000 && i < 512 && y < 0x10_0000_0000 && j < 512
    ensures Append(x, i) == Append(y, j) <==> x == y && i == j
  {
    hide *;
    AppendUndone(x, i);
    AppendUndone(y, j);
  }

  lemma AncestorFields(p: bv64)
    ensures Ancestor(p, 4) == (p >> 36) & 0x1ff
    ensures Ancestor(p, 3) == Append(Ancestor(p, 4), (p >> 27) & 0x1ff)
    ensures Ancestor(p, 2) == Append(Ancestor(p, 3), (p >> 18) & 0x1ff)
    ensures Ancestor(p, 1) == Append(Ancestor(p, 2), (p >> 9) & 0x1ff)
  {
    AncestorShifts(p);
    hide Ancestor;
    PrefixFields(p);
  }

  lemma AncestorShifts(p: bv64)
    ensures var r := p & 0x1fff_ffff_ffff;
            Ancestor(p, 1) == r >> 9 && Ancestor(p, 2) == r >> 18 && Ancestor(p, 3) == r >> 27 && Ancestor(p, 4) == r >> 36
  {}

  lemma PrefixFields(p: bv64)
    ensures var r := p & 0x1fff_ffff_ffff;
            && r >> 36 == (p >> 36) & 0x1ff
            && r >> 27 == ((r >> 36) << 9) | ((p >> 27) & 0x1ff)
            && r >> 18 == ((r >> 27) << 9) | ((p >> 18) & 0x1ff)
            && r >> 9 == ((r >> 18) << 9) | ((p >> 9) & 0x1ff)
  {}

  lemma AncestorBounds(p: bv64, k: nat)
    requires 1 <= k <= 4
    ensures k > 1 ==> Ancestor(p, k) < 0x10_0000_0000
  {}

  lemma DigitBound(x: bv64)
    ensures x & 0x1ff < 512
  {}

  lemma AncestorDigit(p: bv64, k: nat)
    requires 1 <= k <= 4
    ensures var i := Upper(PdFromPagenum(p))[4 - k];
            i < 512 && Ancestor(p, k) == if k == 4 then i else Append(Ancestor(p, k + 1), i)
  {
    hide PdFromPagenum, Ancestor, Append;
    PdIndices(p);
    AncestorFields(p);
    DigitBound(p >> 36);
    DigitBound(p >> 27);
    DigitBound(p >> 18);
    DigitBound(p >> 9);
  }

  lemma TakeOneMore(a: seq<bv64>, b: seq<bv64>, j: nat)
    requires j < |a| && j < |b|
    ensures a[..j + 1] == b[..j + 1] <==> a[..j] == b[..j] && a[j] == b[j]
  {
    assert a[..j + 1] == a[..j] + [a[j]] && b[..j + 1] == b[..j] + [b[j]];
  }

  lemma {:induction false} AncestorIsPrefix(p: bv64, q: bv64, k: nat)
    requires 1 <= k <= 4
    ensures Ancestor(p, k) == Ancestor(q, k) <==>
            Upper(PdFromPagenum(p))[..5 - k] == Upper(PdFromPagenum(q))[..5 - k]
    decreases 4 - k
  {
    hide *;
    var a, b := Upper(PdFromPagenum(p)), Upper(PdFromPagenum(q));
    AncestorDigit(p, k);
    AncestorDigit(q, k);
    TakeOneMore(a, b, 4 - k);
    if k < 4 {
      AncestorIsPrefix(p, q, k + 1);
      AncestorBounds(p, k + 1);
      AncestorBounds(q, k + 1);
      AppendInjective(Ancestor(p, k + 1), a[4 - k], Ancestor(q, k + 1), b[4 - k]);
    } else {
      assert a[..0] == b[..0];
    }
  }

  /** The distinct values of pgn >> 9k over some page numbers. */
  function Ancestors(pgns: set<bv64>, k: nat): set<bv64>
    requires 1 <= k <= 4
  {
    set g | g in pgns :: Ancestor(g, k)
  }

  function PathsOf(pgns: set<bv64>): set<Path> { set g | g in pgns :: PdFromPagenum(g) }

  lemma PathsAdd(pgns: set<bv64>, g: bv64)
    ensures PathsOf(pgns + {g}) == PathsOf(pgns) + {PdFromPagenum(g)}
  {
    hide PdFromPagenum;
  }

  lemma AncestorsAdd(pgns: set<bv64>, g: bv64, k: nat)
    requires 1 <= k <= 4
    ensures Ancestors(pgns + {g}, k) == Ancestors(pgns, k) + {Ancestor(g, k)}
  {
    hide Ancestor;
  }

  lemma SameGrowth<S, T>(s: set<S>, x: S, t: set<T>, y: T)
    requires |s| == |t| && (x in s <==> y in t)
    ensures |s + {x}| == |t + {y}|
  {
    assert x in s ==> s + {x} == s && t + {y} == t;
  }

  lemma {:induction false} LevelCount(pgns: set<bv64>, k: nat)
    requires 1 <= k <= 4
    ensures |Level(PathsOf(pgns), 5 - k)| == |Ancestors(pgns, k)|
  {
    if g :| g in pgns {
      var rest := pgns - {g};
      LevelCount(rest, k);
      assert pgns == rest + {g};
      hide *;
      PathsAdd(rest, g);
      LevelAdd(PathsOf(rest), PdFromPagenum(g), 5 - k);
      AncestorsAdd(rest, g, k);
      SamePrefixSameAncestor(rest, g, k);
      SameGrowth(Level(PathsOf(rest), 5 - k), Upper(PdFromPagenum(g))[..5 - k], Ancestors(rest, k), Ancestor(g, k));
    } else {
      assert Level(PathsOf(pgns), 5 - k) == {} && Ancestors(pgns, k) == {};
    }
  }

  lemma SamePrefixSameAncestor(pgns: set<bv64>, g: bv64, k: nat)
    requires 1 <= k <= 4
    ensures Upper(PdFromPagenum(g))[..5 - k] in Level(PathsOf(pgns), 5 - k) <==> Ancestor(g, k) in Ancestors(pgns, k)
  {
    hide Ancestor, PdFromPagenum, Upper;
    forall h | h in pgns
      ensures Ancestor(h, k) == Ancestor(g, k) <==> Upper(PdFromPagenum(h))[..5 - k] == Upper(PdFromPagenum(g))[..5 - k]
      ensures PdFromPagenum(h) in PathsOf(pgns)
    {
      AncestorIsPrefix(h, g, k);
    }
  }

  // The number of non-root tables is the number of distinct prefixes of the pages walked so far.
  lemma TableCount(ops: seq<Op>, pgns: set<bv64>)
    requires Walks(ops) == PathsOf(pgns)
    ensures |Run(ops).tree.tables| - 1 ==
            |Ancestors(pgns, 1)| + |Ancestors(pgns, 2)| + |Ancestors(pgns, 3)| + |Ancestors(pgns, 4)|
  {
    RunListed(ops);
    LevelsDisjoint(Walks(ops));
    LevelCount(pgns, 1);
    LevelCount(pgns, 2);
    LevelCount(pgns, 3);
    LevelCount(pgns, 4);
  }
}
