/** A partition of the integers, kept as a parent map with path compression. */
module UnionFind {
  type Pair = (int, int)

  // ---- being linked by pairs ----

  predicate Adjacent(pairs: seq<Pair>, x: int, y: int) {
    (x, y) in pairs || (y, x) in pairs
  }

  /** A walk along pairs, in either direction. */
  predicate Walk(pairs: seq<Pair>, path: seq<int>) {
    path != [] && forall i :: 0 < i < |path| ==> Adjacent(pairs, path[i - 1], path[i])
  }

  ghost predicate Linked(pairs: seq<Pair>, x: int, y: int) {
    exists path :: Walk(pairs, path) && path[0] == x && path[|path| - 1] == y
  }

  lemma LinkedRefl(pairs: seq<Pair>, x: int)
    ensures Linked(pairs, x, x)
  {
    assert Walk(pairs, [x]);
  }

  lemma LinkedTrans(pairs: seq<Pair>, x: int, y: int, z: int)
    requires Linked(pairs, x, y) && Linked(pairs, y, z)
    ensures Linked(pairs, x, z)
  {
    var p :| Walk(pairs, p) && p[0] == x && p[|p| - 1] == y;
    var q :| Walk(pairs, q) && q[0] == y && q[|q| - 1] == z;
    var r := p + q[1..];
    forall i | 0 < i < |r| ensures Adjacent(pairs, r[i - 1], r[i]) {
      if i >= |p| {
        assert r[i] == q[i - |p| + 1];
        assert r[i - 1] == q[i - |p|];
      }
    }
    assert Walk(pairs, r);
  }

  lemma {:induction false} LinkedSym(pairs: seq<Pair>, x: int, y: int)
    requires Linked(pairs, x, y)
    ensures Linked(pairs, y, x)
  {
    var p :| Walk(pairs, p) && p[0] == x && p[|p| - 1] == y;
    var r := seq(|p|, i requires 0 <= i < |p| => p[|p| - 1 - i]);
    forall i | 0 < i < |r| ensures Adjacent(pairs, r[i - 1], r[i]) {
      assert Adjacent(pairs, p[|p| - 1 - i], p[|p| - i]);
    }
    assert Walk(pairs, r);
  }

  lemma LinkedGrows(pairs: seq<Pair>, p: Pair, x: int, y: int)
    requires Linked(pairs, x, y)
    ensures Linked(pairs + [p], x, y)
  {
    var w :| Walk(pairs, w) && w[0] == x && w[|w| - 1] == y;
    assert Walk(pairs + [p], w);
  }

  lemma LinkedPair(pairs: seq<Pair>, a: int, b: int)
    requires (a, b) in pairs
    ensures Linked(pairs, a, b)
  {
    assert Walk(pairs, [a, b]);
  }

  /** A partition that respects every pair respects every walk. */
  lemma {:induction false} RespectsWalks(pairs: seq<Pair>, rep: int -> int, path: seq<int>)
    requires Walk(pairs, path) && forall p :: p in pairs ==> rep(p.0) == rep(p.1)
    ensures rep(path[0]) == rep(path[|path| - 1])
  {
    if |path| > 1 {
      var init := path[..|path| - 1];
      assert Walk(pairs, init);
      RespectsWalks(pairs, rep, init);
      assert Adjacent(pairs, path[|path| - 2], path[|path| - 1]);
    }
  }

  // ---- what the structure keeps, on plain values ----

  /** Where `x` stands in the forest. */
  ghost predicate Placed(parent: map<int, int>, rep: int -> int, rank: int -> nat, top: nat, x: int) {
    && rank(x) <= top && rep(x) !in parent
    && (x !in parent ==> rep(x) == x)
    && (x in parent ==> parent[x] != x && rank(x) < rank(parent[x]) && rep(x) == rep(parent[x]))
  }

  /** `parent` is a forest: `rep` follows it to a root, and `rank` grows along it. */
  ghost predicate Forest(parent: map<int, int>, rep: int -> int, rank: int -> nat, top: nat) {
    forall x :: Placed(parent, rep, rank, top, x)
  }

  ghost predicate Rooted(pairs: seq<Pair>, rep: int -> int, x: int) {
    Linked(pairs, x, rep(x))
  }

  /** Roots name exactly the classes that the pairs link. */
  ghost predicate Classes(pairs: seq<Pair>, rep: int -> int) {
    && (forall p :: p in pairs ==> rep(p.0) == rep(p.1))
    && (forall x :: Rooted(pairs, rep, x))
  }

  function Joined(rep: int -> int, ra: int, rb: int): int -> int {
    y => if rep(y) == ra then rb else rep(y)
  }

  lemma ClassesAfterUnion(pairs: seq<Pair>, rep: int -> int, a: int, b: int)
    requires Classes(pairs, rep)
    ensures Classes(pairs + [(a, b)], Joined(rep, rep(a), rep(b)))
  {
    var more, joined := pairs + [(a, b)], Joined(rep, rep(a), rep(b));
    forall p | p in more ensures joined(p.0) == joined(p.1) {
      if p !in pairs { assert p == (a, b); }
    }
    assert Rooted(pairs, rep, a) && Rooted(pairs, rep, b);
    forall x ensures Rooted(more, joined, x) {
      assert Rooted(pairs, rep, x);
      LinkedGrows(pairs, (a, b), x, rep(x));
      if rep(x) == rep(a) { LinkedAcross(pairs, a, b, x, rep(a), rep(b)); }
    }
  }

  lemma LinkedAcross(pairs: seq<Pair>, a: int, b: int, x: int, ra: int, rb: int)
    requires Linked(pairs, x, ra) && Linked(pairs, a, ra) && Linked(pairs, b, rb)
    ensures Linked(pairs + [(a, b)], x, rb)
  {
    var more := pairs + [(a, b)];
    LinkedSym(pairs, a, ra);
    LinkedTrans(pairs, x, ra, a);
    LinkedGrows(pairs, (a, b), x, a);
    LinkedGrows(pairs, (a, b), b, rb);
    LinkedPair(more, a, b);
    LinkedTrans(more, x, a, b);
    LinkedTrans(more, x, b, rb);
  }

  /** Hanging one root under another keeps a forest; the heights above stay bounded. */
  lemma ForestAfterUnion(parent: map<int, int>, rep: int -> int, rank: int -> nat, top: nat, ra: int, rb: int)
    returns (rank': int -> nat)
    requires Forest(parent, rep, rank, top) && ra !in parent && rb !in parent && ra != rb
    ensures Forest(parent[ra := rb], Joined(rep, ra, rb), rank', top + top + 1)
  {
    rank' := y => if y == rb then rank(ra) + rank(rb) + 1 else rank(y);
    assert Placed(parent, rep, rank, top, ra) && Placed(parent, rep, rank, top, rb);
    var joined, more := Joined(rep, ra, rb), parent[ra := rb];
    var bound := top + top + 1;
    forall x ensures Placed(more, joined, rank', bound, x) {
      assert Placed(parent, rep, rank, top, x);
    }
  }

  /** Path compression: a non-root may point straight at its root. */
  lemma ForestAfterCompression(parent: map<int, int>, rep: int -> int, rank: int -> nat, top: nat, x: int)
    requires Forest(parent, rep, rank, top) && x in parent
    ensures Forest(parent[x := rep(x)], rep, rank, top)
  {
    assert Placed(parent, rep, rank, top, x);
    RootIsHigher(parent, rep, rank, top, parent[x]);
    assert Placed(parent, rep, rank, top, rep(x));
    var less := parent[x := rep(x)];
    forall y ensures Placed(less, rep, rank, top, y) {
      assert Placed(parent, rep, rank, top, y);
    }
  }

  lemma {:induction false} RootIsHigher(parent: map<int, int>, rep: int -> int, rank: int -> nat, top: nat, x: int)
    requires Forest(parent, rep, rank, top)
    ensures rank(x) <= rank(rep(x))
    decreases top - rank(x)
  {
    assert Placed(parent, rep, rank, top, x);
    if x in parent { RootIsHigher(parent, rep, rank, top, parent[x]); }
  }

  /** Two integers have the same root exactly when the united pairs link them. */
  lemma SameRootIffLinked(pairs: seq<Pair>, rep: int -> int, x: int, y: int)
    requires Classes(pairs, rep)
    ensures rep(x) == rep(y) <==> Linked(pairs, x, y)
  {
    assert Rooted(pairs, rep, x) && Rooted(pairs, rep, y);
    if rep(x) == rep(y) {
      LinkedSym(pairs, y, rep(y));
      LinkedTrans(pairs, x, rep(x), y);
    }
    if Linked(pairs, x, y) {
      var p :| Walk(pairs, p) && p[0] == x && p[|p| - 1] == y;
      RespectsWalks(pairs, rep, p);
    }
  }

  predicate Keeps(fine: int -> int, coarse: int -> int, x: int, y: int) {
    fine(x) == fine(y) ==> coarse(x) == coarse(y)
  }

  /** Whatever shared a root before still does. */
  ghost predicate Coarser(fine: int -> int, coarse: int -> int) {
    forall x, y :: Keeps(fine, coarse, x, y)
  }

  lemma CoarserTrans(f: int -> int, g: int -> int, h: int -> int)
    requires Coarser(f, g) && Coarser(g, h)
    ensures Coarser(f, h)
  {
    forall x, y ensures Keeps(f, h, x, y) {
      assert Keeps(f, g, x, y) && Keeps(g, h, x, y);
    }
  }

  // ---- the structure ----

  class UnionFind {
    var parent: map<int, int>
    /** The pairs united so far, the root of every integer, and a height that grows along parents. */
    ghost var pairs: seq<Pair>
    ghost var rep: int -> int
    ghost var rank: int -> nat
    ghost var top: nat

    ghost predicate Valid()
      reads this
    {
      Forest(parent, rep, rank, top) && Classes(pairs, rep)
    }

    constructor ()
      ensures Valid() && pairs == [] && forall x :: rep(x) == x
    {
      parent, pairs, rep, rank, top := map[], [], x => x, x => 0, 0;
      new;
      forall x ensures Rooted(pairs, rep, x) { LinkedRefl(pairs, x); }
    }

    /**
     * Returns the root and points every node on the way at it; no class changes. `Classes` makes
     * equal roots mean linked by the united pairs.
     */
    method Find(x: int) returns (r: int)
      requires Valid()
      modifies this`parent
      ensures Valid() && r == rep(x) && parent.Keys == old(parent.Keys)
      ensures x in parent ==> parent[x] == r
      decreases top - rank(x)
    {
      assert Placed(parent, rep, rank, top, x);
      r := if x in parent then parent[x] else x;
      if r != x {
        r := Find(r);
        ForestAfterCompression(parent, rep, rank, top, x);
        parent := parent[x := r];
      }
    }

    /** Unites `a` and `b`: exactly their two classes become one, named by `b`'s root. */
    method Union(a: int, b: int)
      requires Valid()
      modifies this
      ensures Valid() && pairs == old(pairs) + [(a, b)]
      ensures rep(a) == rep(b) == old(rep(b))
      ensures Coarser(old(rep), rep)
      ensures forall x :: rep(x) == if old(rep)(x) == old(rep)(a) then old(rep)(b) else old(rep)(x)
    {
      var ra := Find(a);
      var rb := Find(b);
      ClassesAfterUnion(pairs, rep, a, b);
      assert Placed(parent, rep, rank, top, a) && Placed(parent, rep, rank, top, b);
      if ra != rb {
        ghost var higher := ForestAfterUnion(parent, rep, rank, top, ra, rb);
        parent := parent[ra := rb];
        rank, top := higher, top + top + 1;
        rep := Joined(rep, ra, rb);
      } else {
        SameFunction(pairs + [(a, b)], rep, ra);
      }
      pairs := pairs + [(a, b)];
      forall x, y ensures Keeps(old(rep), rep, x, y) {}
    }
  }

  lemma SameFunction(pairs: seq<Pair>, rep: int -> int, r: int)
    requires Classes(pairs, Joined(rep, r, r))
    ensures Classes(pairs, rep)
  {
    forall x ensures Joined(rep, r, r)(x) == rep(x) {}
    forall x ensures Rooted(pairs, rep, x) {
      assert Rooted(pairs, Joined(rep, r, r), x);
    }
  }
}
