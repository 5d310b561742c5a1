/** Syntax-tree walks: where a block starts, and which block ends are off window. */
module BlockBoundaries {
  import opened Basics
  import opened Intervals

  /** A syntax node; `start` and `end` are its first line and the last line of its content. */
  datatype Node = Node(named: bool, start: int, end: int, children: seq<Node>)

  /** The node reached from `root` by child indices. */
  function At(root: Node, path: seq<nat>): Option<Node> {
    if path == [] then Some(root)
    else if path[0] < |root.children| then At(root.children[path[0]], path[1..])
    else None
  }

  lemma {:induction false} AtChild(root: Node, path: seq<nat>, i: nat)
    ensures At(root, path + [i]) ==
      if At(root, path).Some? && i < |At(root, path).value.children| then Some(At(root, path).value.children[i])
      else None
  {
    if path == [] {
      assert (path + [i])[1..] == [];
    } else if path[0] < |root.children| {
      assert (path + [i])[1..] == path[1..] + [i];
      AtChild(root.children[path[0]], path[1..], i);
    }
  }

  lemma {:induction false} PrefixExists(root: Node, path: seq<nat>, q: seq<nat>)
    requires path <= q && At(root, q).Some?
    ensures At(root, path).Some?
  {
    if path != [] {
      assert path[1..] <= q[1..];
      PrefixExists(root.children[path[0]], path[1..], q[1..]);
    }
  }

  function Parent(path: seq<nat>): seq<nat>
    requires path != []
  {
    path[..|path| - 1]
  }

  function NextSibling(path: seq<nat>): seq<nat>
    requires path != []
  {
    Parent(path) + [path[|path| - 1] + 1]
  }

  lemma AroundChild(path: seq<nat>, i: nat)
    ensures path + [i] != [] && Parent(path + [i]) == path && NextSibling(path + [i]) == path + [i + 1]
  {
  }

  /** A mutable position in a tree. */
  class TreeCursor {
    const root: Node
    var path: seq<nat>

    constructor (root: Node)
      ensures this.root == root && path == [] && Valid()
    {
      this.root, path := root, [];
    }

    ghost predicate Valid()
      reads this
    {
      At(root, path).Some?
    }

    function Current(): Node
      requires Valid()
      reads this
    {
      At(root, path).value
    }

    method GotoFirstChild() returns (moved: bool)
      requires Valid()
      modifies this`path
      ensures Valid() && moved == (old(Current()).children != [])
      ensures path == if moved then old(path) + [0] else old(path)
    {
      moved := Current().children != [];
      AtChild(root, path, 0);
      if moved { path := path + [0]; }
    }

    method GotoNextSibling() returns (moved: bool)
      requires Valid() && path != []
      modifies this`path
      ensures Valid() && moved == At(root, NextSibling(old(path))).Some?
      ensures path == if moved then NextSibling(old(path)) else old(path)
    {
      moved := At(root, NextSibling(path)).Some?;
      if moved { path := NextSibling(path); }
    }

    method GotoParent()
      requires Valid() && path != []
      modifies this`path
      ensures Valid() && path == Parent(old(path))
    {
      PrefixExists(root, Parent(path), path);
      path := Parent(path);
    }
  }

  // ---- off-window endpoints ----

  /** `line` is the one endpoint of the node at `q` that the window does not show, while it shows
      the other: `q` is a named, multi-line node below the root. */
  predicate Dangling(root: Node, q: seq<nat>, merged: seq<Interval>, line: int) {
    q != [] && At(root, q).Some? &&
    var n := At(root, q).value;
    && n.named && n.end > n.start
    && ((Covers(merged, n.start) && !Covers(merged, n.end) && line == n.end)
        || (Covers(merged, n.end) && !Covers(merged, n.start) && line == n.start))
  }

  /** `line` dangles from a node at or below one of the children `0..upTo` of `path`. */
  ghost predicate DanglingBelow(root: Node, path: seq<nat>, upTo: nat, merged: seq<Interval>, line: int) {
    exists q :: path < q && q[|path|] < upTo && Dangling(root, q, merged, line)
  }

  ghost predicate DanglingUnder(root: Node, path: seq<nat>, merged: seq<Interval>, line: int) {
    exists q :: path <= q && Dangling(root, q, merged, line)
  }

  lemma UnderChildren(root: Node, path: seq<nat>, merged: seq<Interval>, line: int)
    requires At(root, path).Some?
    ensures DanglingUnder(root, path, merged, line) <==>
            Dangling(root, path, merged, line)
            || DanglingBelow(root, path, |At(root, path).value.children|, merged, line)
  {
    if DanglingUnder(root, path, merged, line) {
      var q :| path <= q && Dangling(root, q, merged, line);
      if q != path {
        var i := q[|path|];
        assert path + [i] <= q;
        PrefixExists(root, path + [i], q);
        AtChild(root, path, i);
      }
    }
  }

  lemma BelowSnoc(root: Node, path: seq<nat>, upTo: nat, merged: seq<Interval>, line: int)
    ensures DanglingBelow(root, path, upTo + 1, merged, line) <==>
            DanglingBelow(root, path, upTo, merged, line) || DanglingUnder(root, path + [upTo], merged, line)
  {
    if DanglingUnder(root, path + [upTo], merged, line) {
      var q :| path + [upTo] <= q && Dangling(root, q, merged, line);
      assert path < q && q[|path|] == upTo;
    }
    if DanglingBelow(root, path, upTo + 1, merged, line) {
      var q :| path < q && q[|path|] < upTo + 1 && Dangling(root, q, merged, line);
      if q[|path|] == upTo { assert path + [upTo] <= q; }
    }
  }

  /** The node's own endpoint, if it has one that is off the window. */
  method OwnBoundary(root: Node, path: seq<nat>, node: Node, merged: seq<Interval>, found: set<int>)
    returns (out: set<int>)
    requires At(root, path) == Some(node) && Canonical(merged)
    ensures forall l :: l in out <==> l in found || Dangling(root, path, merged, l)
  {
    out := found;
    if node.named && path != [] {
      if node.end > node.start {
        var startVisible := IsVisible(merged, node.start);
        var endVisible := IsVisible(merged, node.end);
        if startVisible && !endVisible {
          out := out + {node.end};
        } else if endVisible && !startVisible {
          out := out + {node.start};
        }
      }
    }
  }

  /** `out` holds what was found before, and what dangles from the node at `path` and its first `upTo` children. */
  ghost predicate Gathered(root: Node, path: seq<nat>, upTo: nat, merged: seq<Interval>, found: set<int>,
                           out: set<int>) {
    forall l :: l in out <==>
      l in found || Dangling(root, path, merged, l) || DanglingBelow(root, path, upTo, merged, l)
  }

  ghost predicate GatheredAll(root: Node, path: seq<nat>, merged: seq<Interval>, found: set<int>, out: set<int>) {
    forall l :: l in out <==> l in found || DanglingUnder(root, path, merged, l)
  }

  lemma GatherNone(root: Node, path: seq<nat>, merged: seq<Interval>, found: set<int>, out: set<int>)
    requires forall l :: l in out <==> l in found || Dangling(root, path, merged, l)
    ensures Gathered(root, path, 0, merged, found, out)
  {
    forall l ensures !DanglingBelow(root, path, 0, merged, l) {}
  }

  lemma GatherChild(root: Node, path: seq<nat>, i: nat, merged: seq<Interval>, found: set<int>, before: set<int>,
                    out: set<int>)
    requires Gathered(root, path, i, merged, found, before) && GatheredAll(root, path + [i], merged, before, out)
    ensures Gathered(root, path, i + 1, merged, found, out)
  {
    forall l { BelowSnoc(root, path, i, merged, l); }
  }

  lemma GatherEnd(root: Node, path: seq<nat>, merged: seq<Interval>, found: set<int>, out: set<int>)
    requires At(root, path).Some?
    requires Gathered(root, path, |At(root, path).value.children|, merged, found, out)
    ensures GatheredAll(root, path, merged, found, out)
  {
    forall l { UnderChildren(root, path, merged, l); }
  }

  lemma ChildAt(root: Node, path: seq<nat>, node: Node, i: nat)
    requires At(root, path) == Some(node)
    ensures i < |node.children| ==> At(root, path + [i]) == Some(node.children[i])
    ensures i < |node.children| ==> node.children[i] < node
    ensures i >= |node.children| ==> At(root, path + [i]) == None
  {
    AtChild(root, path, i);
  }

  /** Depth first; leaves the cursor where it was. */
  method CollectBoundaries(cursor: TreeCursor, merged: seq<Interval>, found: set<int>) returns (out: set<int>)
    requires cursor.Valid() && Canonical(merged)
    modifies cursor`path
    ensures cursor.Valid() && cursor.path == old(cursor.path)
    ensures GatheredAll(cursor.root, cursor.path, merged, found, out)
    decreases cursor.Current()
  {
    var node := cursor.Current();
    ghost var path := cursor.path;
    out := OwnBoundary(cursor.root, cursor.path, node, merged, found);
    GatherNone(cursor.root, path, merged, found, out);
    var moved := cursor.GotoFirstChild();
    if moved {
      ghost var i := 0;
      while true
        invariant i < |node.children| && cursor.Valid() && cursor.path == path + [i]
        invariant Gathered(cursor.root, path, i, merged, found, out)
        decreases |node.children| - i
      {
        ChildAt(cursor.root, path, node, i);
        ghost var before := out;
        out := CollectBoundaries(cursor, merged, out);
        GatherChild(cursor.root, path, i, merged, found, before, out);
        ChildAt(cursor.root, path, node, i + 1);
        AroundChild(path, i);
        var next := cursor.GotoNextSibling();
        if !next { break; }
        i := i + 1;
      }
      AroundChild(path, i);
      cursor.GotoParent();
    }
    GatherEnd(cursor.root, path, merged, found, out);
  }

  /** `line` is an endpoint that no valid range shows, of a multi-line named node below the root whose other
      endpoint some valid range shows. */
  predicate OffWindow(root: Node, q: seq<nat>, ranges: seq<Interval>, line: int) {
    q != [] && At(root, q).Some? &&
    var n := At(root, q).value;
    && n.named && n.end > n.start
    && ((Shown(ranges, n.start) && !Shown(ranges, n.end) && line == n.end)
        || (Shown(ranges, n.end) && !Shown(ranges, n.start) && line == n.start))
  }

  ghost predicate OffWindowEnd(root: Node, ranges: seq<Interval>, line: int) {
    exists q :: OffWindow(root, q, ranges, line)
  }

  /** The whole query: the lines are exactly the off-window endpoints with respect to the ranges given. */
  method EnclosingBoundaries(root: Node, ranges: seq<Interval>) returns (out: set<int>)
    requires forall r :: r in ranges ==> 0 <= r.lo <= U32_MAX && 0 <= r.hi <= U32_MAX
    ensures forall l :: l in out <==> OffWindowEnd(root, ranges, l)
  {
    var merged := NormalizeRanges(ranges);
    if merged == [] {
      forall l ensures !OffWindowEnd(root, ranges, l) { DanglingIsOffWindow(root, merged, ranges, l); }
      return {};
    }
    var cursor := new TreeCursor(root);
    out := CollectBoundaries(cursor, merged, {});
    forall l ensures l in out <==> OffWindowEnd(root, ranges, l) {
      DanglingIsOffWindow(root, merged, ranges, l);
    }
  }

  lemma DanglingIsOffWindow(root: Node, merged: seq<Interval>, ranges: seq<Interval>, l: int)
    requires SameLines(merged, KeptRanges(ranges))
    ensures DanglingUnder(root, [], merged, l) <==> OffWindowEnd(root, ranges, l)
  {
    KeptRangesCover(ranges);
    forall q ensures Dangling(root, q, merged, l) <==> OffWindow(root, q, ranges, l) {}
    if q :| OffWindow(root, q, ranges, l) { assert [] <= q && Dangling(root, q, merged, l); }
  }

  // ---- the block that starts on a row ----

  function StartOf(root: Node, path: seq<nat>): int
    requires At(root, path).Some?
  {
    At(root, path).value.start
  }

  /** Climbs from `leaf` while the parent is not the root and still starts on `row`. */
  method Climb(root: Node, leaf: seq<nat>, row: int) returns (q: seq<nat>)
    requires At(root, leaf).Some? && StartOf(root, leaf) == row
    ensures q <= leaf && (leaf != [] ==> q != [])
    ensures forall n :: |q| <= n <= |leaf| ==> At(root, leaf[..n]).Some? && StartOf(root, leaf[..n]) == row
    ensures |q| > 1 ==> At(root, leaf[..|q| - 1]).Some? && StartOf(root, leaf[..|q| - 1]) != row
  {
    q := leaf;
    assert leaf[..|leaf|] == leaf;
    while q != []
      invariant q <= leaf && (leaf != [] ==> q != [])
      invariant forall n :: |q| <= n <= |leaf| ==> At(root, leaf[..n]).Some? && StartOf(root, leaf[..n]) == row
      decreases |q|
    {
      var parent := q[..|q| - 1];
      assert parent == leaf[..|q| - 1];
      PrefixExists(root, parent, leaf);
      if parent == [] { break; }
      if StartOf(root, parent) != row { break; }
      q := parent;
    }
  }

  /** Nodes start no earlier than the nodes that contain them. */
  ghost predicate Nested(root: Node) {
    forall p, q :: p <= q && At(root, q).Some? && At(root, p).Some? ==> StartOf(root, p) <= StartOf(root, q)
  }

  /** In a tree of nested spans the climb ends at the outermost node below the root that starts on the row. */
  lemma ClimbIsOutermost(root: Node, leaf: seq<nat>, row: int, q: seq<nat>, p: seq<nat>)
    requires Nested(root) && At(root, leaf).Some? && q <= leaf
    requires forall n :: |q| <= n <= |leaf| ==> At(root, leaf[..n]).Some? && StartOf(root, leaf[..n]) == row
    requires |q| > 1 ==> At(root, leaf[..|q| - 1]).Some? && StartOf(root, leaf[..|q| - 1]) != row
    requires p != [] && p <= leaf && At(root, p).Some? && StartOf(root, p) == row
    ensures q <= p
  {
    assert p == leaf[..|p|] && q == leaf[..|q|];
    if |q| > 1 { NotAbove(root, leaf, row, |q|, p); }
  }

  lemma NotAbove(root: Node, leaf: seq<nat>, row: int, n: nat, p: seq<nat>)
    requires Nested(root) && 1 < n <= |leaf| && At(root, leaf[..n]).Some? && StartOf(root, leaf[..n]) == row
    requires At(root, leaf[..n - 1]).Some? && StartOf(root, leaf[..n - 1]) != row
    requires p <= leaf && At(root, p).Some? && StartOf(root, p) == row
    ensures |p| >= n
  {
    var above, below := leaf[..n - 1], leaf[..n];
    assert above <= below && (|p| < n ==> p <= above);
    assert StartOf(root, above) <= StartOf(root, below);
  }
}
