/** Duplicate code: windows of equal hash, chained into clusters. */
module CloneClusters {
  import opened UnionFind

  /** The normalised text of a significant line, and its line number. */
  type Line = (string, int)

  const CLONE_WINDOW := 7
  const POS := 0x100_0000

  // ---- windows, written as one number each ----

  function File(p: int): int { p / POS }

  function Index(p: int): int { p % POS }

  predicate IsWindow(sig: seq<seq<Line>>, p: int) {
    p >= 0 && File(p) < |sig| && Index(p) + CLONE_WINDOW <= |sig[File(p)]|
  }

  /** Fewer than 2^24 windows in every file; beyond that the numbers would collide. */
  predicate SmallFiles(sig: seq<seq<Line>>) {
    forall f :: 0 <= f < |sig| ==> |sig[f]| < POS + CLONE_WINDOW - 1
  }

  function Text(lines: seq<Line>): string {
    if lines == [] then "" else if |lines| == 1 then lines[0].0 else lines[0].0 + "\n" + Text(lines[1..])
  }

  /** Texts of as many lines agree exactly when the lines do. */
  lemma {:induction false} TextTellsLines(a: seq<Line>, b: seq<Line>)
    requires |a| == |b| && forall i :: 0 <= i < |a| ==> '\n' !in a[i].0 && '\n' !in b[i].0
    ensures Text(a) == Text(b) <==> forall i :: 0 <= i < |a| ==> a[i].0 == b[i].0
  {
    if |a| > 1 {
      TextTellsLines(a[1..], b[1..]);
      var s, t := a[0].0, b[0].0;
      if Text(a) == Text(b) { FirstLineAgrees(s, Text(a[1..]), t, Text(b[1..])); }
      if forall i :: 0 <= i < |a| ==> a[i].0 == b[i].0 {
        forall i | 0 <= i < |a| - 1 ensures a[1..][i].0 == b[1..][i].0 { assert a[i + 1].0 == b[i + 1].0; }
      } else if s == t {
        var k :| 0 <= k < |a| && a[k].0 != b[k].0;
        assert a[1..][k - 1].0 != b[1..][k - 1].0;
        Prefixed(s, Text(a[1..]), Text(b[1..]));
      }
    }
  }

  lemma FirstLineAgrees(s: string, rest: string, t: string, more: string)
    requires '\n' !in s && '\n' !in t && s + "\n" + rest == t + "\n" + more
    ensures s == t && rest == more
  {
    var all := s + "\n" + rest;
    assert all[|s|] == '\n' && all[|t|] == '\n';
    assert forall i :: 0 <= i < |s| ==> all[i] == s[i] && s[i] in s;
    assert forall i :: 0 <= i < |t| ==> all[i] == t[i] && t[i] in t;
    assert |s| == |t|;
    assert all[|s| + 1..] == rest && all[|t| + 1..] == more && all[..|s|] == s && all[..|t|] == t;
  }

  lemma Prefixed(s: string, rest: string, more: string)
    ensures s + "\n" + rest == s + "\n" + more <==> rest == more
  {
    if s + "\n" + rest == s + "\n" + more {
      assert (s + "\n" + rest)[|s| + 1..] == rest && (s + "\n" + more)[|s| + 1..] == more;
    }
  }

  function HashAt(sig: seq<seq<Line>>, hash: string -> int, p: int): int {
    if IsWindow(sig, p) then hash(Text(sig[File(p)][Index(p)..Index(p) + CLONE_WINDOW])) else 0
  }

  lemma Decode(f: int, i: int)
    requires f >= 0 && 0 <= i < POS
    ensures File(f * POS + i) == f && Index(f * POS + i) == i
  {
  }

  // ---- what a clone is ----

  predicate SameHash(sig: seq<seq<Line>>, hash: string -> int, p: int, q: int) {
    IsWindow(sig, p) && IsWindow(sig, q) && HashAt(sig, hash, p) == HashAt(sig, hash, q)
  }

  /** Some other window has the same hash. */
  ghost predicate Matched(sig: seq<seq<Line>>, hash: string -> int, p: int) {
    exists q :: q != p && SameHash(sig, hash, p, q)
  }

  predicate Neighbours(p: int, q: int) {
    File(p) == File(q) && (Index(p) == Index(q) + 1 || Index(q) == Index(p) + 1)
  }

  ghost predicate Near(sig: seq<seq<Line>>, hash: string -> int, p: int, q: int) {
    Matched(sig, hash, p) && Matched(sig, hash, q) && (SameHash(sig, hash, p, q) || Neighbours(p, q))
  }

  ghost predicate Chain(sig: seq<seq<Line>>, hash: string -> int, path: seq<int>) {
    path != [] && forall i :: 0 < i < |path| ==> Near(sig, hash, path[i - 1], path[i])
  }

  /** `p` and `q` are in one component of "equal window hash or adjacent matched windows". */
  ghost predicate SameClone(sig: seq<seq<Line>>, hash: string -> int, p: int, q: int) {
    exists path :: Chain(sig, hash, path) && path[0] == p && path[|path| - 1] == q
  }

  // ---- lists kept per key, in order of first appearance ----

  predicate Distinct(s: seq<int>) {
    forall i, j :: 0 <= i < j < |s| ==> s[i] != s[j]
  }

  function Firsts(keys: seq<int>): seq<int> {
    if keys == [] then []
    else
      var k, before := keys[|keys| - 1], Firsts(keys[..|keys| - 1]);
      if k in before then before else before + [k]
  }

  function Picked(items: seq<int>, keys: seq<int>, k: int): seq<int>
    requires |items| == |keys|
  {
    if keys == [] then []
    else
      var n := |keys| - 1;
      Picked(items[..n], keys[..n], k) + if keys[n] == k then [items[n]] else []
  }

  lemma {:induction false} FirstsMembers(keys: seq<int>)
    ensures Distinct(Firsts(keys)) && forall k :: k in Firsts(keys) <==> k in keys
  {
    if keys != [] {
      FirstsMembers(keys[..|keys| - 1]);
      assert keys == keys[..|keys| - 1] + [keys[|keys| - 1]];
    }
  }

  predicate Has(items: seq<int>, keys: seq<int>, k: int, x: int)
    requires |items| == |keys|
  {
    exists i :: 0 <= i < |items| && items[i] == x && keys[i] == k
  }

  lemma HasSnoc(items: seq<int>, keys: seq<int>, k: int, x: int)
    requires |items| == |keys| > 0
    ensures var n := |keys| - 1;
      Has(items, keys, k, x) <==> Has(items[..n], keys[..n], k, x) || (items[n] == x && keys[n] == k)
  {
    var n := |keys| - 1;
    if Has(items[..n], keys[..n], k, x) {
      var i :| 0 <= i < n && items[..n][i] == x && keys[..n][i] == k;
      assert items[i] == x && keys[i] == k;
    }
    if Has(items, keys, k, x) {
      var i :| 0 <= i < |items| && items[i] == x && keys[i] == k;
      if i < n { assert items[..n][i] == x && keys[..n][i] == k; }
    }
  }

  lemma {:induction false} PickedHas(items: seq<int>, keys: seq<int>, k: int, x: int)
    requires |items| == |keys|
    ensures x in Picked(items, keys, k) <==> Has(items, keys, k, x)
  {
    if keys != [] {
      HasSnoc(items, keys, k, x);
      PickedHas(items[..|keys| - 1], keys[..|keys| - 1], k, x);
    }
  }

  lemma {:induction false} PickedDistinct(items: seq<int>, keys: seq<int>, k: int)
    requires |items| == |keys| && Distinct(items)
    ensures Distinct(Picked(items, keys, k))
  {
    if keys != [] {
      var n := |keys| - 1;
      PickedDistinct(items[..n], keys[..n], k);
      PickedHas(items[..n], keys[..n], k, items[n]);
      LastIsNew(items, keys, k);
    }
  }

  lemma LastIsNew(items: seq<int>, keys: seq<int>, k: int)
    requires |items| == |keys| > 0 && Distinct(items)
    ensures !Has(items[..|keys| - 1], keys[..|keys| - 1], k, items[|keys| - 1])
  {
    var n := |keys| - 1;
    forall i | 0 <= i < n ensures items[..n][i] != items[n] {}
  }

  lemma PickedMembers(items: seq<int>, keys: seq<int>, k: int)
    requires |items| == |keys|
    ensures forall x :: x in Picked(items, keys, k) <==> Has(items, keys, k, x)
    ensures Distinct(items) ==> Distinct(Picked(items, keys, k))
  {
    forall x ensures x in Picked(items, keys, k) <==> Has(items, keys, k, x) { PickedHas(items, keys, k, x); }
    if Distinct(items) { PickedDistinct(items, keys, k); }
  }

  lemma {:induction false} NonePicked(items: seq<int>, keys: seq<int>, k: int)
    requires |items| == |keys| && k !in keys
    ensures Picked(items, keys, k) == []
  {
    if keys != [] { NonePicked(items[..|keys| - 1], keys[..|keys| - 1], k); }
  }

  lemma PickedStep(items: seq<int>, keys: seq<int>, k: int)
    requires |items| == |keys| > 0
    ensures var n := |keys| - 1;
      Picked(items, keys, k) == Picked(items[..n], keys[..n], k) + if keys[n] == k then [items[n]] else []
  {
  }

  method Group(items: seq<int>, keys: seq<int>) returns (order: seq<int>, lists: map<int, seq<int>>)
    requires |items| == |keys|
    ensures order == Firsts(keys)
    ensures forall k :: k in lists <==> k in keys
    ensures forall k :: k in lists ==> lists[k] == Picked(items, keys, k)
  {
    order, lists := [], map[];
    for n := 0 to |items|
      invariant order == Firsts(keys[..n])
      invariant forall k :: k in lists <==> k in keys[..n]
      invariant forall k :: k in lists ==> lists[k] == Picked(items[..n], keys[..n], k)
    {
      assert keys[..n + 1] == keys[..n] + [keys[n]] && keys[..n + 1][..n] == keys[..n];
      assert items[..n + 1][..n] == items[..n];
      FirstsMembers(keys[..n]);
      var k := keys[n];
      if k !in lists {
        NonePicked(items[..n], keys[..n], k);
        order := order + [k];
        lists := lists[k := []];
      }
      ghost var before := lists;
      lists := lists[k := lists[k] + [items[n]]];
      forall j | j in lists ensures lists[j] == Picked(items[..n + 1], keys[..n + 1], j) {
        PickedStep(items[..n + 1], keys[..n + 1], j);
        assert items[..n + 1][n] == items[n] && keys[..n + 1][n] == keys[n];
      }
    }
    assert keys[..|keys|] == keys && items[..|items|] == items;
  }

  // ---- every window and its hash ----

  method Windows(sig: seq<seq<Line>>, hash: string -> int) returns (positions: seq<int>, keys: seq<int>)
    requires SmallFiles(sig)
    ensures |positions| == |keys| && Distinct(positions)
    ensures forall p :: p in positions <==> IsWindow(sig, p)
    ensures forall i :: 0 <= i < |keys| ==> keys[i] == HashAt(sig, hash, positions[i])
  {
    positions, keys := [], [];
    for f := 0 to |sig|
      invariant |positions| == |keys| && Distinct(positions)
      invariant forall p :: p in positions <==> IsWindow(sig, p) && File(p) < f
      invariant forall i :: 0 <= i < |keys| ==> keys[i] == HashAt(sig, hash, positions[i])
    {
      var i := 0;
      while i + CLONE_WINDOW <= |sig[f]|
        invariant 0 <= i <= |sig[f]| && i < POS
        invariant |positions| == |keys| && Distinct(positions)
        invariant forall p :: p in positions <==> IsWindow(sig, p) && (File(p) < f || (File(p) == f && Index(p) < i))
        invariant forall j :: 0 <= j < |keys| ==> keys[j] == HashAt(sig, hash, positions[j])
      {
        Decode(f, i);
        var p := f * POS + i;
        assert p !in positions;
        forall q ensures q == p <==> File(q) == f && Index(q) == i {}
        positions := positions + [p];
        keys := keys + [hash(Text(sig[f][i..i + CLONE_WINDOW]))];
        i := i + 1;
      }
    }
  }

  // ---- linking ----

  /** Distinct positions with their keys, and who shares a key. */
  predicate Keyed(positions: seq<int>, keys: seq<int>, key: int -> int) {
    && |positions| == |keys| && Distinct(positions)
    && forall i :: 0 <= i < |keys| ==> keys[i] == key(positions[i])
  }

  predicate Twin(positions: seq<int>, key: int -> int, p: int) {
    p in positions && exists q :: q in positions && q != p && key(q) == key(p)
  }

  /** The second list holds the positions of one key. */
  lemma PickedKeyed(positions: seq<int>, keys: seq<int>, key: int -> int, k: int)
    requires Keyed(positions, keys, key)
    ensures var list := Picked(positions, keys, k);
      && Distinct(list) && (forall p :: p in list <==> p in positions && key(p) == k)
      && (forall p :: p in list ==> (Twin(positions, key, p) <==> |list| >= 2))
  {
    PickedMembers(positions, keys, k);
    var list := Picked(positions, keys, k);
    forall p ensures p in list <==> p in positions && key(p) == k {
      if p in positions && key(p) == k {
        var i :| 0 <= i < |positions| && positions[i] == p;
        assert Has(positions, keys, k, p);
      }
    }
    forall p | p in list ensures Twin(positions, key, p) <==> |list| >= 2 { TwinIff(positions, key, k, list, p); }
  }

  /** A list of two or more holds another window. */
  lemma TwinIff(positions: seq<int>, key: int -> int, k: int, list: seq<int>, p: int)
    requires Distinct(list) && p in list && forall q :: q in list <==> q in positions && key(q) == k
    ensures Twin(positions, key, p) <==> |list| >= 2
  {
    if |list| >= 2 {
      var q := if list[0] == p then list[1] else list[0];
      assert q in list;
    } else {
      assert forall q :: q in list ==> q == list[0];
    }
  }

  /** Marks one list of equal windows and unites it with its first. */
  method LinkList(uf: UnionFind, list: seq<int>, matched: seq<int>) returns (more: seq<int>)
    requires uf.Valid() && list != [] && Distinct(matched + list)
    modifies uf
    ensures uf.Valid() && more == matched + list
    ensures forall p :: p in uf.pairs ==> p in old(uf.pairs) || (p.0 in list && p.1 in list)
    ensures Coarser(old(uf.rep), uf.rep)
    ensures forall x, y :: x in list && y in list ==> uf.rep(x) == uf.rep(y)
  {
    more := matched;
    for i := 0 to |list|
      invariant uf.Valid() && more == matched + list[..i]
      invariant forall p :: p in uf.pairs ==> p in old(uf.pairs) || (p.0 in list && p.1 in list)
      invariant Coarser(old(uf.rep), uf.rep)
      invariant forall j :: 0 <= j < i ==> uf.rep(list[j]) == uf.rep(list[0])
    {
      assert (matched + list)[|matched| + i] == list[i];
      assert forall j :: 0 <= j < |more| ==> more[j] == (matched + list)[j];
      if list[i] !in more { more := more + [list[i]]; }
      ghost var before := uf.rep;
      uf.Union(list[0], list[i]);
      CoarserTrans(old(uf.rep), before, uf.rep);
      assert forall j :: 0 <= j < i ==> Keeps(before, uf.rep, list[j], list[0]);
      assert list[..i + 1] == list[..i] + [list[i]];
    }
    assert list[..|list|] == list;
  }

  /** What holds once the lists of the keys in `done` are linked. */
  ghost predicate Linking(positions: seq<int>, key: int -> int, done: seq<int>, matched: seq<int>,
                          pairs: seq<Pair>, rep: int -> int) {
    && Distinct(matched)
    && (forall p :: p in matched <==> Twin(positions, key, p) && key(p) in done)
    && (forall p :: p in pairs ==> p.0 in matched && p.1 in matched && key(p.0) == key(p.1))
    && (forall x, y :: x in matched && y in matched ==> Agree(key, rep, x, y))
  }

  predicate Agree(key: int -> int, rep: int -> int, x: int, y: int) {
    key(x) == key(y) ==> rep(x) == rep(y)
  }

  lemma SkipList(positions: seq<int>, key: int -> int, done: seq<int>, matched: seq<int>,
                 pairs: seq<Pair>, rep: int -> int, k: int, list: seq<int>)
    requires Linking(positions, key, done, matched, pairs, rep)
    requires forall p :: p in list <==> p in positions && key(p) == k
    requires forall p :: p in list ==> !Twin(positions, key, p)
    ensures Linking(positions, key, done + [k], matched, pairs, rep)
  {
  }

  lemma AddList(positions: seq<int>, key: int -> int, done: seq<int>, matched: seq<int>,
                pairs: seq<Pair>, rep: int -> int, k: int, list: seq<int>, pairs': seq<Pair>, rep': int -> int)
    requires Linking(positions, key, done, matched, pairs, rep) && k !in done
    requires Distinct(list) && forall p :: p in list <==> p in positions && key(p) == k
    requires forall p :: p in list ==> Twin(positions, key, p)
    requires forall p :: p in pairs' ==> p in pairs || (p.0 in list && p.1 in list)
    requires Coarser(rep, rep') && forall x, y :: x in list && y in list ==> rep'(x) == rep'(y)
    ensures Distinct(matched + list) && Linking(positions, key, done + [k], matched + list, pairs', rep')
  {
    DistinctLists(positions, key, done, matched, pairs, rep, k, list);
    forall x, y | x in matched + list && y in matched + list ensures Agree(key, rep', x, y) {
      if x in matched && y in matched { assert Agree(key, rep, x, y) && Keeps(rep, rep', x, y); }
    }
  }

  lemma DistinctLists(positions: seq<int>, key: int -> int, done: seq<int>, matched: seq<int>,
                      pairs: seq<Pair>, rep: int -> int, k: int, list: seq<int>)
    requires Linking(positions, key, done, matched, pairs, rep) && k !in done
    requires Distinct(list) && forall p :: p in list <==> p in positions && key(p) == k
    ensures Distinct(matched + list)
  {
    var all := matched + list;
    forall i, j | 0 <= i < j < |all| ensures all[i] != all[j] {
      if i < |matched| <= j { assert all[i] in matched && all[j] in list; }
    }
  }

  method LinkEqual(uf: UnionFind, positions: seq<int>, keys: seq<int>, ghost key: int -> int)
    returns (matched: seq<int>)
    requires uf.Valid() && uf.pairs == [] && Keyed(positions, keys, key)
    modifies uf
    ensures uf.Valid() && Linking(positions, key, Firsts(keys), matched, uf.pairs, uf.rep)
  {
    var order, lists := Group(positions, keys);
    FirstsMembers(keys);
    matched := [];
    var n := 0;
    while n < |order|
      invariant 0 <= n <= |order| && uf.Valid() && Linking(positions, key, order[..n], matched, uf.pairs, uf.rep)
    {
      NextKey(order, keys, n);
      matched := LinkKey(uf, positions, keys, key, order[..n], order[..n + 1], order[n], lists[order[n]], matched);
      n := n + 1;
    }
    assert order[..|order|] == order;
  }

  lemma NextKey(order: seq<int>, keys: seq<int>, n: nat)
    requires n < |order| && Distinct(order) && forall k :: k in order <==> k in keys
    ensures order[n] in keys && order[n] !in order[..n] && order[..n + 1] == order[..n] + [order[n]]
  {
    assert order[n] in order;
    forall i | 0 <= i < n ensures order[i] != order[n] {}
  }

  /** The windows of one hash. */
  method LinkKey(uf: UnionFind, ghost positions: seq<int>, ghost keys: seq<int>, ghost key: int -> int,
                 ghost done: seq<int>, ghost next: seq<int>, ghost k: int, list: seq<int>, before: seq<int>)
    returns (matched: seq<int>)
    requires uf.Valid() && Keyed(positions, keys, key) && list == Picked(positions, keys, k)
    requires k !in done && next == done + [k] && Linking(positions, key, done, before, uf.pairs, uf.rep)
    modifies uf
    ensures uf.Valid() && Linking(positions, key, next, matched, uf.pairs, uf.rep)
  {
    PickedKeyed(positions, keys, key, k);
    matched := before;
    if |list| >= 2 {
      ghost var rep, pairs := uf.rep, uf.pairs;
      DistinctLists(positions, key, done, before, pairs, rep, k, list);
      matched := LinkList(uf, list, before);
      AddList(positions, key, done, before, pairs, rep, k, list, uf.pairs, uf.rep);
    } else {
      SkipList(positions, key, done, before, uf.pairs, uf.rep, k, list);
    }
  }

  method LinkAdjacent(uf: UnionFind, matched: seq<int>)
    requires uf.Valid()
    modifies uf
    ensures uf.Valid() && Coarser(old(uf.rep), uf.rep)
    ensures forall p :: p in uf.pairs ==> p in old(uf.pairs) || (p.0 in matched && p.1 in matched && p.1 == p.0 + 1)
    ensures forall x :: x in matched && x + 1 in matched ==> uf.rep(x) == uf.rep(x + 1)
  {
    for n := 0 to |matched|
      invariant uf.Valid() && Coarser(old(uf.rep), uf.rep)
      invariant forall p :: p in uf.pairs ==> p in old(uf.pairs) || (p.0 in matched && p.1 in matched && p.1 == p.0 + 1)
      invariant forall i :: 0 <= i < n && matched[i] + 1 in matched ==> uf.rep(matched[i]) == uf.rep(matched[i] + 1)
    {
      var p := matched[n];
      if p + 1 in matched {
        ghost var before := uf.rep;
        uf.Union(p, p + 1);
        CoarserTrans(old(uf.rep), before, uf.rep);
        assert forall i :: 0 <= i < n && matched[i] + 1 in matched ==>
                 Keeps(before, uf.rep, matched[i], matched[i] + 1);
      }
    }
  }

  method Roots(uf: UnionFind, matched: seq<int>) returns (roots: seq<int>)
    requires uf.Valid()
    modifies uf`parent
    ensures uf.Valid() && |roots| == |matched|
    ensures forall i :: 0 <= i < |roots| ==> roots[i] == uf.rep(matched[i])
  {
    roots := [];
    for n := 0 to |matched|
      invariant uf.Valid() && |roots| == n
      invariant forall i :: 0 <= i < n ==> roots[i] == uf.rep(matched[i])
    {
      var r := uf.Find(matched[n]);
      roots := roots + [r];
    }
  }

  // ---- clusters are the components ----

  lemma NextWindow(sig: seq<seq<Line>>, p: int)
    requires SmallFiles(sig) && IsWindow(sig, p) && IsWindow(sig, p + 1)
    ensures Neighbours(p, p + 1)
  {
  }

  lemma NeighboursAreNext(p: int, q: int)
    requires Neighbours(p, q)
    ensures q == p + 1 || p == q + 1
  {
  }

  /** What the two linking loops leave behind. */
  ghost predicate Linkage(sig: seq<seq<Line>>, hash: string -> int, matched: seq<int>, pairs: seq<Pair>,
                          rep: int -> int) {
    && Classes(pairs, rep)
    && (forall p :: p in matched <==> Matched(sig, hash, p))
    && (forall p :: p in pairs ==> Near(sig, hash, p.0, p.1))
    && (forall x, y :: x in matched && y in matched ==> Agree(p => HashAt(sig, hash, p), rep, x, y))
    && (forall x :: x in matched && x + 1 in matched ==> rep(x) == rep(x + 1))
  }

  lemma NearSharesRoot(sig: seq<seq<Line>>, hash: string -> int, matched: seq<int>, pairs: seq<Pair>, rep: int -> int,
                       p: int, q: int)
    requires Linkage(sig, hash, matched, pairs, rep) && Near(sig, hash, p, q)
    ensures rep(p) == rep(q)
  {
    assert p in matched && q in matched;
    assert Agree(p => HashAt(sig, hash, p), rep, p, q);
    if Neighbours(p, q) { NeighboursAreNext(p, q); }
  }

  lemma {:induction false} ChainSharesRoot(sig: seq<seq<Line>>, hash: string -> int, matched: seq<int>,
                                           pairs: seq<Pair>, rep: int -> int, path: seq<int>)
    requires Linkage(sig, hash, matched, pairs, rep) && Chain(sig, hash, path)
    ensures rep(path[0]) == rep(path[|path| - 1])
  {
    if |path| > 1 {
      var init := path[..|path| - 1];
      assert Chain(sig, hash, init);
      ChainSharesRoot(sig, hash, matched, pairs, rep, init);
      NearSharesRoot(sig, hash, matched, pairs, rep, path[|path| - 2], path[|path| - 1]);
    }
  }

  lemma NearSym(sig: seq<seq<Line>>, hash: string -> int, p: int, q: int)
    requires Near(sig, hash, p, q)
    ensures Near(sig, hash, q, p)
  {
  }

  /** Matched windows share a root exactly when they are in one component. */
  lemma RootsAreComponents(sig: seq<seq<Line>>, hash: string -> int, matched: seq<int>, pairs: seq<Pair>,
                           rep: int -> int, p: int, q: int)
    requires Linkage(sig, hash, matched, pairs, rep)
    ensures rep(p) == rep(q) <==> SameClone(sig, hash, p, q)
  {
    SameRootIffLinked(pairs, rep, p, q);
    if rep(p) == rep(q) {
      var path :| Walk(pairs, path) && path[0] == p && path[|path| - 1] == q;
      forall i | 0 < i < |path| ensures Near(sig, hash, path[i - 1], path[i]) {
        assert Adjacent(pairs, path[i - 1], path[i]);
        if (path[i], path[i - 1]) in pairs { NearSym(sig, hash, path[i], path[i - 1]); }
      }
      assert Chain(sig, hash, path);
    }
    if SameClone(sig, hash, p, q) {
      var path :| Chain(sig, hash, path) && path[0] == p && path[|path| - 1] == q;
      ChainSharesRoot(sig, hash, matched, pairs, rep, path);
    }
  }

  /** Every matched window is in exactly one cluster, once, and clusters are components. */
  ghost predicate Clustering(sig: seq<seq<Line>>, hash: string -> int, clusters: seq<seq<int>>) {
    && (forall c :: 0 <= c < |clusters| ==> clusters[c] != [] && Distinct(clusters[c]))
    && (forall p :: Matched(sig, hash, p) <==> exists c :: 0 <= c < |clusters| && p in clusters[c])
    && (forall c, d, p, q :: 0 <= c < |clusters| && 0 <= d < |clusters| && p in clusters[c] && q in clusters[d] ==>
          (c == d <==> SameClone(sig, hash, p, q)))
  }

  /** The windows whose key occurs elsewhere are the matched ones. */
  lemma TwinsAreMatched(sig: seq<seq<Line>>, hash: string -> int, positions: seq<int>, p: int)
    requires forall q :: q in positions <==> IsWindow(sig, q)
    ensures Twin(positions, q => HashAt(sig, hash, q), p) <==> Matched(sig, hash, p)
  {
    var key := q => HashAt(sig, hash, q);
    if Twin(positions, key, p) {
      var q :| q in positions && q != p && key(q) == key(p);
      assert SameHash(sig, hash, p, q);
    }
    if Matched(sig, hash, p) {
      var q :| q != p && SameHash(sig, hash, p, q);
      assert q in positions && key(q) == key(p);
    }
  }

  lemma KeyIsListed(positions: seq<int>, keys: seq<int>, key: int -> int, p: int)
    requires Keyed(positions, keys, key) && p in positions
    ensures key(p) in Firsts(keys)
  {
    var i :| 0 <= i < |positions| && positions[i] == p;
    assert keys[i] in keys;
    FirstsMembers(keys);
  }

  lemma PairIsNear(sig: seq<seq<Line>>, hash: string -> int, p: int, q: int)
    requires SmallFiles(sig) && Matched(sig, hash, p) && Matched(sig, hash, q)
    requires HashAt(sig, hash, p) == HashAt(sig, hash, q) || q == p + 1
    ensures Near(sig, hash, p, q)
  {
    if HashAt(sig, hash, p) == HashAt(sig, hash, q) {
      assert SameHash(sig, hash, p, q);
    } else {
      NextWindow(sig, p);
    }
  }

  lemma LinkageHolds(sig: seq<seq<Line>>, hash: string -> int, positions: seq<int>, keys: seq<int>, matched: seq<int>,
                     pairs: seq<Pair>, rep: int -> int, pairs': seq<Pair>, rep': int -> int)
    requires SmallFiles(sig) && Classes(pairs', rep')
    requires forall p :: p in positions <==> IsWindow(sig, p)
    requires Keyed(positions, keys, p => HashAt(sig, hash, p))
    requires Linking(positions, p => HashAt(sig, hash, p), Firsts(keys), matched, pairs, rep)
    requires Coarser(rep, rep')
    requires forall p :: p in pairs' ==> p in pairs || (p.0 in matched && p.1 in matched && p.1 == p.0 + 1)
    requires forall x :: x in matched && x + 1 in matched ==> rep'(x) == rep'(x + 1)
    ensures Linkage(sig, hash, matched, pairs', rep')
  {
    var key := p => HashAt(sig, hash, p);
    forall p ensures p in matched <==> Matched(sig, hash, p) {
      TwinsAreMatched(sig, hash, positions, p);
      if p in positions { KeyIsListed(positions, keys, key, p); }
    }
    forall p | p in pairs' ensures Near(sig, hash, p.0, p.1) {
      assert p in pairs ==> key(p.0) == key(p.1);
      PairIsNear(sig, hash, p.0, p.1);
    }
    forall x, y | x in matched && y in matched ensures Agree(key, rep', x, y) {
      assert Agree(key, rep, x, y) && Keeps(rep, rep', x, y);
    }
  }

  method LinkedWindows(sig: seq<seq<Line>>, hash: string -> int)
    returns (matched: seq<int>, roots: seq<int>, ghost pairs: seq<Pair>, ghost rep: int -> int)
    requires SmallFiles(sig)
    ensures Linkage(sig, hash, matched, pairs, rep) && Keyed(matched, roots, rep)
  {
    var positions, keys := Windows(sig, hash);
    var uf := new UnionFind();
    ghost var key := p => HashAt(sig, hash, p);
    matched := LinkEqual(uf, positions, keys, key);
    ghost var pairs0, rep0 := uf.pairs, uf.rep;
    LinkAdjacent(uf, matched);
    LinkageHolds(sig, hash, positions, keys, matched, pairs0, rep0, uf.pairs, uf.rep);
    pairs, rep := uf.pairs, uf.rep;
    roots := Roots(uf, matched);
  }

  method Clusters(sig: seq<seq<Line>>, hash: string -> int) returns (clusters: seq<seq<int>>)
    requires SmallFiles(sig)
    ensures Clustering(sig, hash, clusters)
  {
    ghost var pairs, rep;
    var matched, roots;
    matched, roots, pairs, rep := LinkedWindows(sig, hash);
    clusters := ListByRoot(matched, roots);
    ListsCluster(sig, hash, matched, roots, pairs, rep, clusters);
  }

  /** The windows of every root, roots in the order in which they come up. */
  method ListByRoot(matched: seq<int>, roots: seq<int>) returns (clusters: seq<seq<int>>)
    requires |matched| == |roots|
    ensures |clusters| == |Firsts(roots)|
    ensures forall c :: 0 <= c < |clusters| ==> clusters[c] == Picked(matched, roots, Firsts(roots)[c])
  {
    var order, lists := Group(matched, roots);
    FirstsMembers(roots);
    clusters := [];
    var n := 0;
    while n < |order|
      invariant 0 <= n <= |order| && IsListed(matched, roots, order[..n], clusters)
    {
      NextKey(order, roots, n);
      ListedSnoc(matched, roots, order[..n], clusters, order[n]);
      clusters := clusters + [lists[order[n]]];
      n := n + 1;
    }
    assert order[..|order|] == order;
  }

  predicate IsListed(matched: seq<int>, roots: seq<int>, order: seq<int>, clusters: seq<seq<int>>)
    requires |matched| == |roots|
  {
    |clusters| == |order| && forall c :: 0 <= c < |clusters| ==> clusters[c] == Picked(matched, roots, order[c])
  }

  lemma ListedSnoc(matched: seq<int>, roots: seq<int>, order: seq<int>, clusters: seq<seq<int>>, k: int)
    requires |matched| == |roots| && IsListed(matched, roots, order, clusters)
    ensures IsListed(matched, roots, order + [k], clusters + [Picked(matched, roots, k)])
  {
  }

  lemma ListsCluster(sig: seq<seq<Line>>, hash: string -> int, matched: seq<int>, roots: seq<int>, pairs: seq<Pair>,
                     rep: int -> int, clusters: seq<seq<int>>)
    requires Linkage(sig, hash, matched, pairs, rep) && Keyed(matched, roots, rep)
    requires |clusters| == |Firsts(roots)|
    requires forall c :: 0 <= c < |clusters| ==> clusters[c] == Picked(matched, roots, Firsts(roots)[c])
    ensures Clustering(sig, hash, clusters)
  {
    var order := Firsts(roots);
    FirstsMembers(roots);
    forall c | 0 <= c < |clusters|
      ensures clusters[c] != [] && Distinct(clusters[c])
      ensures forall p :: p in clusters[c] <==> p in matched && rep(p) == order[c]
    {
      PickedKeyed(matched, roots, rep, order[c]);
      assert order[c] in roots;
      var i :| 0 <= i < |roots| && roots[i] == order[c];
      assert matched[i] in clusters[c];
    }
    forall p | p in matched ensures exists c :: 0 <= c < |clusters| && p in clusters[c] {
      var i :| 0 <= i < |matched| && matched[i] == p;
      assert roots[i] in order;
      var c :| 0 <= c < |order| && order[c] == roots[i];
      assert p in clusters[c];
    }
    forall c, d, p, q | 0 <= c < |clusters| && 0 <= d < |clusters| && p in clusters[c] && q in clusters[d]
      ensures c == d <==> SameClone(sig, hash, p, q)
    {
      RootsAreComponents(sig, hash, matched, pairs, rep, p, q);
    }
  }
}
