/** The line regions of a clone: each cluster's windows swept file by file. */
module CloneRegions {
  import opened CloneClusters
  import opened Intervals
  import opened Sorting

  /** Significant lines `lo..hi` of one file, and the source lines they start and end on. */
  datatype Region = Region(file: int, lo: int, hi: int, startLine: int, endLine: int)

  datatype Clone = Clone(regions: seq<Region>, sigLines: int)

  /** Some window that starts at one of `idxs` contains significant line `x`. */
  predicate InWindow(idxs: seq<int>, x: int) {
    exists i :: 0 <= i < |idxs| && idxs[i] <= x < idxs[i] + CLONE_WINDOW
  }

  function Upto(runs: seq<Interval>, start: int, last: int): seq<Interval> {
    runs + [Interval(start, last + CLONE_WINDOW - 1)]
  }

  ghost predicate Sweeps(runs: seq<Interval>, idxs: seq<int>) {
    forall x :: Covers(runs, x) <==> InWindow(idxs, x)
  }

  predicate Ascending(idxs: seq<int>) {
    forall i, j :: 0 <= i < j < |idxs| ==> idxs[i] <= idxs[j]
  }

  lemma InWindowSnoc(idxs: seq<int>, k: nat, x: int)
    requires k < |idxs|
    ensures InWindow(idxs[..k + 1], x) <==> InWindow(idxs[..k], x) || idxs[k] <= x < idxs[k] + CLONE_WINDOW
  {
    if InWindow(idxs[..k], x) {
      var i :| 0 <= i < k && idxs[..k][i] <= x < idxs[..k][i] + CLONE_WINDOW;
      assert idxs[..k + 1][i] == idxs[i];
    }
    if idxs[k] <= x < idxs[k] + CLONE_WINDOW { assert idxs[..k + 1][k] == idxs[k]; }
    if InWindow(idxs[..k + 1], x) && !(idxs[k] <= x < idxs[k] + CLONE_WINDOW) {
      var i :| 0 <= i < k + 1 && idxs[..k + 1][i] <= x < idxs[..k + 1][i] + CLONE_WINDOW;
      assert idxs[..k][i] == idxs[i];
    }
  }

  /** The sweep over the window starts of one file. */
  method Sweep(idxs: seq<int>) returns (runs: seq<Interval>)
    requires idxs != [] && Ascending(idxs)
    ensures Canonical(runs) && Sweeps(runs, idxs)
  {
    runs := [];
    var start, prev := idxs[0], idxs[0];
    ghost var one := Upto(runs, start, prev);
    forall x ensures Covers(one, x) <==> InWindow(idxs[..1], x) {
      CoversSnoc([], Interval(start, prev + CLONE_WINDOW - 1), x);
      InWindowSnoc(idxs, 0, x);
    }
    for k := 1 to |idxs|
      invariant start <= prev == idxs[k - 1] && Canonical(Upto(runs, start, prev))
      invariant Sweeps(Upto(runs, start, prev), idxs[..k])
    {
      if idxs[k] > prev + CLONE_WINDOW {
        Separate(runs, start, prev, idxs[k]);
        runs := Upto(runs, start, prev);
        start := idxs[k];
      } else {
        Stretch(runs, start, prev, idxs[k]);
      }
      prev := idxs[k];
      ghost var now := Upto(runs, start, prev);
      forall x ensures Covers(now, x) <==> InWindow(idxs[..k + 1], x) {
        InWindowSnoc(idxs, k, x);
      }
    }
    runs := Upto(runs, start, prev);
    assert idxs[..|idxs|] == idxs;
  }

  lemma Separate(runs: seq<Interval>, start: int, prev: int, next: int)
    requires start <= prev && Canonical(Upto(runs, start, prev)) && next > prev + CLONE_WINDOW
    ensures var more := Upto(runs, start, prev) + [Interval(next, next + CLONE_WINDOW - 1)];
      && Canonical(more)
      && forall x :: Covers(more, x) <==>
           Covers(Upto(runs, start, prev), x) || next <= x < next + CLONE_WINDOW
  {
    var one := Upto(runs, start, prev);
    var next' := Interval(next, next + CLONE_WINDOW - 1);
    assert one[|runs|] == Interval(start, prev + CLONE_WINDOW - 1);
    var more := one + [next'];
    forall i, j | 0 <= i < j < |more| ensures more[i].hi + 1 < more[j].lo {
      if j == |one| && i < |runs| { assert one[i].hi + 1 < one[|runs|].lo; }
      if j < |one| { assert one[i].hi + 1 < one[j].lo; }
    }
    forall x ensures Covers(more, x) <==> Covers(one, x) || next <= x < next + CLONE_WINDOW {
      CoversSnoc(one, next', x);
    }
  }

  lemma Stretch(runs: seq<Interval>, start: int, prev: int, next: int)
    requires start <= prev <= next <= prev + CLONE_WINDOW && Canonical(Upto(runs, start, prev))
    ensures var more := Upto(runs, start, next);
      && Canonical(more)
      && forall x :: Covers(more, x) <==>
           Covers(Upto(runs, start, prev), x) || next <= x < next + CLONE_WINDOW
  {
    var one := Upto(runs, start, prev);
    var more := Upto(runs, start, next);
    forall i, j | 0 <= i < j < |more| ensures more[i].hi + 1 < more[j].lo {
      assert one[i].hi + 1 < one[j].lo;
    }
    forall x ensures Covers(more, x) <==> Covers(one, x) || next <= x < next + CLONE_WINDOW {
      CoversSnoc(runs, Interval(start, prev + CLONE_WINDOW - 1), x);
      CoversSnoc(runs, Interval(start, next + CLONE_WINDOW - 1), x);
    }
    forall i | 0 <= i < |more| ensures more[i].lo <= more[i].hi {
      assert one[i].lo <= one[i].hi;
    }
  }

  // ---- a cluster's regions ----

  predicate CoversIn(regions: seq<Region>, f: int, x: int) {
    exists i :: 0 <= i < |regions| && regions[i].file == f && regions[i].lo <= x <= regions[i].hi
  }

  /** Some window of the cluster contains significant line `x` of file `f`. */
  predicate InCluster(positions: seq<int>, f: int, x: int) {
    exists p :: p in positions && File(p) == f && Index(p) <= x < Index(p) + CLONE_WINDOW
  }

  predicate Placed(sig: seq<seq<Line>>, r: Region) {
    && 0 <= r.file < |sig| && 0 <= r.lo <= r.hi < |sig[r.file]|
    && r.startLine == sig[r.file][r.lo].1 && r.endLine == sig[r.file][r.hi].1
  }

  predicate Apart(regions: seq<Region>) {
    forall i, j :: 0 <= i < j < |regions| && regions[i].file == regions[j].file ==> regions[i].hi + 1 < regions[j].lo
  }

  function Total(regions: seq<Region>): int {
    if regions == [] then 0
    else Total(regions[..|regions| - 1]) + regions[|regions| - 1].hi + 1 - regions[|regions| - 1].lo
  }

  /** The regions of a cluster: in every file, the separated runs of its windows' lines. */
  ghost predicate Fits(sig: seq<seq<Line>>, positions: seq<int>, clone: Clone) {
    && (forall i :: 0 <= i < |clone.regions| ==> Placed(sig, clone.regions[i]))
    && Apart(clone.regions)
    && (forall f, x :: CoversIn(clone.regions, f, x) <==> InCluster(positions, f, x))
    && clone.sigLines == Total(clone.regions)
  }

  method FileRegions(sig: seq<seq<Line>>, f: int, idxs: seq<int>) returns (regions: seq<Region>, sigLines: int)
    requires 0 <= f < |sig| && idxs != [] && Ascending(idxs)
    requires forall i :: 0 <= i < |idxs| ==> 0 <= idxs[i] && idxs[i] + CLONE_WINDOW <= |sig[f]|
    ensures forall i :: 0 <= i < |regions| ==> Placed(sig, regions[i]) && regions[i].file == f
    ensures Apart(regions) && sigLines == Total(regions)
    ensures forall x :: CoversIn(regions, f, x) <==> InWindow(idxs, x)
  {
    var runs := Sweep(idxs);
    regions, sigLines := [], 0;
    for k := 0 to |runs|
      invariant |regions| == k && sigLines == Total(regions)
      invariant forall i :: 0 <= i < k ==> Placed(sig, regions[i]) && regions[i].file == f
      invariant forall i :: 0 <= i < k ==> regions[i].lo == runs[i].lo && regions[i].hi == runs[i].hi
    {
      var run := runs[k];
      assert Intervals.Has(run, run.lo) && Intervals.Has(run, run.hi);
      assert Covers(runs, run.lo) && Covers(runs, run.hi);
      ghost var before := regions;
      regions := regions + [Region(f, run.lo, run.hi, sig[f][run.lo].1, sig[f][run.hi].1)];
      assert regions[..k] == before;
      sigLines := sigLines + run.hi + 1 - run.lo;
    }
    forall x ensures CoversIn(regions, f, x) <==> InWindow(idxs, x) {
      assert Covers(runs, x) <==> InWindow(idxs, x);
      if Covers(runs, x) {
        var i :| 0 <= i < |runs| && Intervals.Has(runs[i], x);
        assert regions[i].file == f;
      }
      if CoversIn(regions, f, x) {
        var i :| 0 <= i < |regions| && regions[i].file == f && regions[i].lo <= x <= regions[i].hi;
        assert Intervals.Has(runs[i], x);
      }
    }
  }

  predicate Less(a: int, b: int) { a < b }

  function Files(positions: seq<int>): (r: seq<int>)
    ensures |r| == |positions|
  {
    seq(|positions|, i requires 0 <= i < |positions| => File(positions[i]))
  }

  function Indices(positions: seq<int>): (r: seq<int>)
    ensures |r| == |positions|
  {
    seq(|positions|, i requires 0 <= i < |positions| => Index(positions[i]))
  }

  predicate StartsAt(positions: seq<int>, f: int, i: int) {
    exists p :: p in positions && File(p) == f && Index(p) == i
  }

  lemma PickedStarts(positions: seq<int>, f: int, i: int)
    ensures i in Picked(Indices(positions), Files(positions), f) <==> StartsAt(positions, f, i)
  {
    var idxs, files := Indices(positions), Files(positions);
    PickedMembers(idxs, files, f);
    if CloneClusters.Has(idxs, files, f, i) {
      var k :| 0 <= k < |idxs| && idxs[k] == i && files[k] == f;
      assert positions[k] in positions;
    }
    if StartsAt(positions, f, i) {
      var p :| p in positions && File(p) == f && Index(p) == i;
      var k :| 0 <= k < |positions| && positions[k] == p;
      assert idxs[k] == i && files[k] == f;
    }
  }

  lemma StartsCover(positions: seq<int>, f: int, sorted: seq<int>, x: int)
    requires forall i :: i in sorted <==> StartsAt(positions, f, i)
    ensures InWindow(sorted, x) <==> InCluster(positions, f, x)
  {
    if InWindow(sorted, x) {
      var k :| 0 <= k < |sorted| && sorted[k] <= x < sorted[k] + CLONE_WINDOW;
      assert sorted[k] in sorted;
    }
    if InCluster(positions, f, x) {
      var p :| p in positions && File(p) == f && Index(p) <= x < Index(p) + CLONE_WINDOW;
      assert Index(p) in sorted;
      var k :| 0 <= k < |sorted| && sorted[k] == Index(p);
    }
  }

  /** One file's sorted window starts stand for the cluster's windows in that file. */
  lemma FileWindows(positions: seq<int>, f: int)
    ensures var sorted := Sort(Less, Picked(Indices(positions), Files(positions), f));
      && Ascending(sorted)
      && (forall i :: i in sorted <==> StartsAt(positions, f, i))
      && (forall x :: InWindow(sorted, x) <==> InCluster(positions, f, x))
  {
    var list := Picked(Indices(positions), Files(positions), f);
    var sorted := Sort(Less, list);
    assert Ordering(Less);
    SortSorts(Less, list);
    SortPermutes(Less, list);
    forall i ensures i in sorted <==> StartsAt(positions, f, i) { PickedStarts(positions, f, i); }
    forall x ensures InWindow(sorted, x) <==> InCluster(positions, f, x) { StartsCover(positions, f, sorted, x); }
  }

  lemma CoversInConcat(a: seq<Region>, b: seq<Region>, f: int, x: int)
    ensures CoversIn(a + b, f, x) <==> CoversIn(a, f, x) || CoversIn(b, f, x)
  {
    var all := a + b;
    if CoversIn(a, f, x) {
      var i :| 0 <= i < |a| && a[i].file == f && a[i].lo <= x <= a[i].hi;
      assert all[i] == a[i];
    }
    if CoversIn(b, f, x) {
      var i :| 0 <= i < |b| && b[i].file == f && b[i].lo <= x <= b[i].hi;
      assert all[|a| + i] == b[i];
    }
  }

  lemma {:induction false} TotalConcat(a: seq<Region>, b: seq<Region>)
    ensures Total(a + b) == Total(a) + Total(b)
  {
    if b == [] {
      assert a + b == a;
    } else {
      var init := b[..|b| - 1];
      assert (a + b)[..|a + b| - 1] == a + init;
      TotalConcat(a, init);
    }
  }

  /** Every region is in place, in one of the files done. */
  predicate PlacedIn(sig: seq<seq<Line>>, done: seq<int>, regions: seq<Region>) {
    forall i :: 0 <= i < |regions| ==> Placed(sig, regions[i]) && regions[i].file in done
  }

  /** The regions found so far are those of the files in `done`. */
  ghost predicate Swept(sig: seq<seq<Line>>, positions: seq<int>, done: seq<int>, regions: seq<Region>, sigLines: int) {
    && PlacedIn(sig, done, regions)
    && Apart(regions) && sigLines == Total(regions)
    && (forall f, x :: CoversIn(regions, f, x) <==> f in done && InCluster(positions, f, x))
  }

  lemma PlacedConcat(sig: seq<seq<Line>>, done: seq<int>, a: seq<Region>, f: int, b: seq<Region>)
    requires PlacedIn(sig, done, a) && PlacedIn(sig, [f], b)
    ensures PlacedIn(sig, done + [f], a + b)
  {
    forall i | 0 <= i < |a + b| ensures Placed(sig, (a + b)[i]) && (a + b)[i].file in done + [f] {
      if i < |a| { assert a[i].file in done; } else { assert b[i - |a|].file in [f]; }
    }
  }

  lemma CoversConcat(sig: seq<seq<Line>>, positions: seq<int>, done: seq<int>, a: seq<Region>, f: int, b: seq<Region>,
                     g: int, x: int)
    requires f !in done && PlacedIn(sig, done, a) && PlacedIn(sig, [f], b)
    requires CoversIn(a, g, x) <==> g in done && InCluster(positions, g, x)
    requires g == f ==> (CoversIn(b, f, x) <==> InCluster(positions, f, x))
    ensures CoversIn(a + b, g, x) <==> g in done + [f] && InCluster(positions, g, x)
  {
    CoversInConcat(a, b, g, x);
    if g != f { assert !CoversIn(b, g, x); }
  }

  lemma SweptMore(sig: seq<seq<Line>>, positions: seq<int>, done: seq<int>, regions: seq<Region>, sigLines: int,
                  f: int, more: seq<Region>, moreLines: int)
    requires Swept(sig, positions, done, regions, sigLines) && f !in done
    requires PlacedIn(sig, [f], more) && Apart(more) && moreLines == Total(more)
    requires forall x :: CoversIn(more, f, x) <==> InCluster(positions, f, x)
    ensures Swept(sig, positions, done + [f], regions + more, sigLines + moreLines)
  {
    TotalConcat(regions, more);
    PlacedConcat(sig, done, regions, f, more);
    ApartConcat(regions, more, done, f);
    forall g, x ensures CoversIn(regions + more, g, x) <==> g in done + [f] && InCluster(positions, g, x) {
      CoversConcat(sig, positions, done, regions, f, more, g, x);
    }
  }

  lemma ApartConcat(a: seq<Region>, b: seq<Region>, done: seq<int>, f: int)
    requires Apart(a) && Apart(b) && f !in done
    requires forall i :: 0 <= i < |a| ==> a[i].file in done
    requires forall i :: 0 <= i < |b| ==> b[i].file == f
    ensures Apart(a + b)
  {
    var all := a + b;
    forall i, j | 0 <= i < j < |all| && all[i].file == all[j].file ensures all[i].hi + 1 < all[j].lo {
      if i < |a| { assert all[i].file in done; }
    }
  }

  lemma StartsFit(sig: seq<seq<Line>>, positions: seq<int>, f: int, idxs: seq<int>)
    requires forall p :: p in positions ==> IsWindow(sig, p)
    requires f in Files(positions) && forall i :: i in idxs <==> StartsAt(positions, f, i)
    ensures 0 <= f < |sig| && idxs != []
    ensures forall k :: 0 <= k < |idxs| ==> 0 <= idxs[k] && idxs[k] + CLONE_WINDOW <= |sig[f]|
  {
    var i :| 0 <= i < |positions| && Files(positions)[i] == f;
    assert positions[i] in positions && Index(positions[i]) in idxs;
    forall k | 0 <= k < |idxs| ensures 0 <= idxs[k] && idxs[k] + CLONE_WINDOW <= |sig[f]| {
      assert idxs[k] in idxs;
    }
  }

  /** One file of the cluster. */
  method NextFile(sig: seq<seq<Line>>, positions: seq<int>, f: int, starts: seq<int>)
    returns (more: seq<Region>, moreLines: int)
    requires forall p :: p in positions ==> IsWindow(sig, p)
    requires f in Files(positions) && starts == Picked(Indices(positions), Files(positions), f)
    ensures PlacedIn(sig, [f], more) && Apart(more) && moreLines == Total(more)
    ensures forall x :: CoversIn(more, f, x) <==> InCluster(positions, f, x)
  {
    var idxs := Sort(Less, starts);
    FileWindows(positions, f);
    StartsFit(sig, positions, f, idxs);
    more, moreLines := FileRegions(sig, f, idxs);
  }

  lemma AllFilesSwept(sig: seq<seq<Line>>, positions: seq<int>, done: seq<int>, regions: seq<Region>, sigLines: int)
    requires Swept(sig, positions, done, regions, sigLines) && forall f :: f in done <==> f in Files(positions)
    ensures Fits(sig, positions, Clone(regions, sigLines))
  {
    forall f, x ensures CoversIn(regions, f, x) <==> InCluster(positions, f, x) {
      if p :| p in positions && File(p) == f && Index(p) <= x < Index(p) + CLONE_WINDOW {
        var i :| 0 <= i < |positions| && positions[i] == p;
        assert Files(positions)[i] in Files(positions);
      }
    }
  }

  /** The file that comes next, with what is known of it, added to the files done. */
  method AddFile(sig: seq<seq<Line>>, positions: seq<int>, ghost done: seq<int>, ghost more: seq<int>, f: int,
                 starts: seq<int>, before: seq<Region>, linesBefore: int)
    returns (regions: seq<Region>, sigLines: int)
    requires forall p :: p in positions ==> IsWindow(sig, p)
    requires f in Files(positions) && f !in done && more == done + [f]
    requires starts == Picked(Indices(positions), Files(positions), f)
    requires Swept(sig, positions, done, before, linesBefore)
    ensures Swept(sig, positions, more, regions, sigLines)
  {
    var found, foundLines := NextFile(sig, positions, f, starts);
    SweptMore(sig, positions, done, before, linesBefore, f, found, foundLines);
    regions, sigLines := before + found, linesBefore + foundLines;
  }

  lemma NextFirst(order: seq<int>, files: seq<int>, n: nat)
    requires n < |order| && CloneClusters.Distinct(order) && forall f :: f in order <==> f in files
    ensures order[n] !in order[..n] && order[n] in files && order[..n + 1] == order[..n] + [order[n]]
  {
    assert order[n] in order;
    forall i | 0 <= i < n ensures order[i] != order[n] {}
  }

  method RegionsOf(sig: seq<seq<Line>>, positions: seq<int>) returns (clone: Clone)
    requires forall p :: p in positions ==> IsWindow(sig, p)
    ensures Fits(sig, positions, clone)
  {
    var order, lists := Group(Indices(positions), Files(positions));
    FirstsMembers(Files(positions));
    var regions, sigLines := [], 0;
    var n := 0;
    while n < |order|
      invariant 0 <= n <= |order| && Swept(sig, positions, order[..n], regions, sigLines)
    {
      NextFirst(order, Files(positions), n);
      regions, sigLines :=
        AddFile(sig, positions, order[..n], order[..n + 1], order[n], lists[order[n]], regions, sigLines);
      n := n + 1;
    }
    assert order[..|order|] == order;
    AllFilesSwept(sig, positions, order, regions, sigLines);
    clone := Clone(regions, sigLines);
  }

  // ---- what the regions mean ----

  predicate Holds(r: Region, p: int) {
    r.file == File(p) && r.lo <= Index(p) && Index(p) + CLONE_WINDOW - 1 <= r.hi
  }

  /** Every window of a cluster lies whole in exactly one of its regions. */
  lemma OneRegion(sig: seq<seq<Line>>, positions: seq<int>, clone: Clone, p: int)
    requires Fits(sig, positions, clone) && p in positions
    ensures exists i :: 0 <= i < |clone.regions| && Holds(clone.regions[i], p)
    ensures forall i, j :: 0 <= i < j < |clone.regions| && Holds(clone.regions[i], p) ==> !Holds(clone.regions[j], p)
  {
    var rs, f := clone.regions, File(p);
    assert InCluster(positions, f, Index(p));
    assert CoversIn(rs, f, Index(p));
    var i :| 0 <= i < |rs| && rs[i].file == f && rs[i].lo <= Index(p) <= rs[i].hi;
    assert !CoversIn(rs, f, rs[i].hi + 1);
    assert !InCluster(positions, f, rs[i].hi + 1);
  }

  /** With ascending line numbers the regions of one file do not share a source line either. */
  lemma RegionsDisjointOnLines(sig: seq<seq<Line>>, positions: seq<int>, clone: Clone, i: int, j: int)
    requires Fits(sig, positions, clone) && 0 <= i < j < |clone.regions|
    requires clone.regions[i].file == clone.regions[j].file
    requires forall f, a, b :: 0 <= f < |sig| && 0 <= a < b < |sig[f]| ==> sig[f][a].1 < sig[f][b].1
    ensures clone.regions[i].startLine <= clone.regions[i].endLine < clone.regions[j].startLine
  {
    var a, b := clone.regions[i], clone.regions[j];
    assert Placed(sig, a) && Placed(sig, b);
    if a.lo < a.hi { assert sig[a.file][a.lo].1 < sig[a.file][a.hi].1; }
    assert sig[a.file][a.hi].1 < sig[a.file][b.lo].1;
  }

  // ---- the report ----

  predicate MoreLines(a: Clone, b: Clone) { a.sigLines > b.sigLines }

  function Repeated(clones: seq<Clone>): seq<Clone> {
    if clones == [] then []
    else
      var last := clones[|clones| - 1];
      Repeated(clones[..|clones| - 1]) + if |last.regions| < 2 then [] else [last]
  }

  /** Clone by clone, the regions of the first clusters. */
  ghost predicate SweptTo(sig: seq<seq<Line>>, clusters: seq<seq<int>>, swept: seq<Clone>) {
    |swept| <= |clusters| && forall c :: 0 <= c < |swept| ==> Fits(sig, clusters[c], swept[c])
  }

  ghost predicate AllSwept(sig: seq<seq<Line>>, clusters: seq<seq<int>>, swept: seq<Clone>) {
    |swept| == |clusters| && SweptTo(sig, clusters, swept)
  }

  lemma SweptOne(sig: seq<seq<Line>>, clusters: seq<seq<int>>, swept: seq<Clone>, clone: Clone)
    requires |swept| < |clusters| && SweptTo(sig, clusters, swept) && Fits(sig, clusters[|swept|], clone)
    ensures SweptTo(sig, clusters, swept + [clone])
  {
  }

  lemma RepeatedSnoc(swept: seq<Clone>, clone: Clone)
    ensures Repeated(swept + [clone]) == Repeated(swept) + if |clone.regions| < 2 then [] else [clone]
  {
    assert (swept + [clone])[..|swept|] == swept;
  }

  ghost predicate Reported(sig: seq<seq<Line>>, hash: string -> int, results: seq<Clone>) {
    exists clusters, swept :: Clustering(sig, hash, clusters) && AllSwept(sig, clusters, swept)
                              && results == Sort(MoreLines, Repeated(swept))
  }

  /** The clusters in turn; the clones of two regions or more are kept. */
  method SweepClusters(sig: seq<seq<Line>>, clusters: seq<seq<int>>)
    returns (results: seq<Clone>, ghost swept: seq<Clone>)
    requires forall c, p :: 0 <= c < |clusters| && p in clusters[c] ==> IsWindow(sig, p)
    ensures AllSwept(sig, clusters, swept) && results == Repeated(swept)
  {
    results, swept := [], [];
    for c := 0 to |clusters|
      invariant |swept| == c && SweptTo(sig, clusters, swept) && results == Repeated(swept)
    {
      var clone := RegionsOf(sig, clusters[c]);
      SweptOne(sig, clusters, swept, clone);
      RepeatedSnoc(swept, clone);
      if |clone.regions| >= 2 { results := results + [clone]; }
      swept := swept + [clone];
    }
  }

  /** Every component of matched windows is swept, and those of two regions or more are reported, largest first. */
  method DetectClones(sig: seq<seq<Line>>, hash: string -> int) returns (results: seq<Clone>)
    requires SmallFiles(sig)
    ensures Reported(sig, hash, results)
  {
    var clusters := Clusters(sig, hash);
    forall c, p | 0 <= c < |clusters| && p in clusters[c] ensures IsWindow(sig, p) { assert Matched(sig, hash, p); }
    ghost var swept;
    results, swept := SweepClusters(sig, clusters);
    results := Sort(MoreLines, results);
  }

  lemma {:induction false} RepeatedMembers(clones: seq<Clone>, clone: Clone)
    ensures clone in Repeated(clones) <==> clone in clones && |clone.regions| >= 2
  {
    if clones != [] {
      RepeatedMembers(clones[..|clones| - 1], clone);
      assert clones == clones[..|clones| - 1] + [clones[|clones| - 1]];
    }
  }

  /** Two windows of equal hash end up in one cluster. */
  lemma TwinsShareCluster(sig: seq<seq<Line>>, hash: string -> int, clusters: seq<seq<int>>, p: int, q: int)
    requires Clustering(sig, hash, clusters) && p != q && SameHash(sig, hash, p, q)
    ensures exists c :: 0 <= c < |clusters| && p in clusters[c] && q in clusters[c]
  {
    assert SameHash(sig, hash, q, p);
    assert Matched(sig, hash, p) && Matched(sig, hash, q);
    var c :| 0 <= c < |clusters| && p in clusters[c];
    var d :| 0 <= d < |clusters| && q in clusters[d];
    assert Near(sig, hash, p, q);
    assert Chain(sig, hash, [p, q]);
    assert SameClone(sig, hash, p, q);
  }

  lemma SortedReport(swept: seq<Clone>)
    ensures Sorted(MoreLines, Sort(MoreLines, Repeated(swept)))
    ensures forall clone :: clone in Sort(MoreLines, Repeated(swept)) <==> clone in swept && |clone.regions| >= 2
  {
    assert Ordering(MoreLines);
    SortSorts(MoreLines, Repeated(swept));
    SortPermutes(MoreLines, Repeated(swept));
    forall clone ensures clone in Repeated(swept) <==> clone in swept && |clone.regions| >= 2 {
      RepeatedMembers(swept, clone);
    }
  }

  /** Line `x` of file `f` is in some window of the component of `p`. */
  ghost predicate InComponent(sig: seq<seq<Line>>, hash: string -> int, p: int, f: int, x: int) {
    exists q :: Matched(sig, hash, q) && SameClone(sig, hash, p, q) && File(q) == f
                && Index(q) <= x < Index(q) + CLONE_WINDOW
  }

  /** The clone's regions are the separated runs of the lines that the component of `p` covers. */
  ghost predicate CloneOf(sig: seq<seq<Line>>, hash: string -> int, p: int, clone: Clone) {
    && (forall i :: 0 <= i < |clone.regions| ==> Placed(sig, clone.regions[i]))
    && Apart(clone.regions) && clone.sigLines == Total(clone.regions)
    && (forall f, x :: CoversIn(clone.regions, f, x) <==> InComponent(sig, hash, p, f, x))
  }

  lemma ClusterIsComponent(sig: seq<seq<Line>>, hash: string -> int, clusters: seq<seq<int>>, c: int, p: int,
                           clone: Clone)
    requires Clustering(sig, hash, clusters) && 0 <= c < |clusters| && p in clusters[c]
    requires Fits(sig, clusters[c], clone)
    ensures CloneOf(sig, hash, p, clone)
  {
    forall f, x ensures InCluster(clusters[c], f, x) <==> InComponent(sig, hash, p, f, x) {
      if InCluster(clusters[c], f, x) {
        var q :| q in clusters[c] && File(q) == f && Index(q) <= x < Index(q) + CLONE_WINDOW;
        assert Matched(sig, hash, q) && SameClone(sig, hash, p, q);
      }
      if InComponent(sig, hash, p, f, x) {
        var q :| Matched(sig, hash, q) && SameClone(sig, hash, p, q) && File(q) == f
                 && Index(q) <= x < Index(q) + CLONE_WINDOW;
        var d :| 0 <= d < |clusters| && q in clusters[d];
        assert c == d;
      }
    }
  }

  /** The region that holds a window starts where a window of the component starts. */
  lemma RegionOfWindow(sig: seq<seq<Line>>, hash: string -> int, p: int, clone: Clone) returns (f: int, x: int)
    requires CloneOf(sig, hash, p, clone) && Matched(sig, hash, p)
    ensures CoversIn(clone.regions, f, x) && !CoversIn(clone.regions, f, x - 1)
  {
    assert Chain(sig, hash, [p]);
    assert SameClone(sig, hash, p, p);
    assert InComponent(sig, hash, p, File(p), Index(p));
    assert CoversIn(clone.regions, File(p), Index(p));
    var i :| 0 <= i < |clone.regions| && clone.regions[i].file == File(p)
             && clone.regions[i].lo <= Index(p) <= clone.regions[i].hi;
    f, x := clone.regions[i].file, clone.regions[i].lo;
    StartsThere(sig, clone.regions, i);
  }

  lemma StartsThere(sig: seq<seq<Line>>, regions: seq<Region>, i: nat)
    requires i < |regions| && Apart(regions) && forall j :: 0 <= j < |regions| ==> Placed(sig, regions[j])
    ensures CoversIn(regions, regions[i].file, regions[i].lo) && !CoversIn(regions, regions[i].file, regions[i].lo - 1)
  {
    assert Placed(sig, regions[i]);
  }

  lemma InOneCluster(sig: seq<seq<Line>>, hash: string -> int, clusters: seq<seq<int>>, c: int, p: int, w: int)
    requires Clustering(sig, hash, clusters) && 0 <= c < |clusters| && p in clusters[c]
    requires Matched(sig, hash, w) && SameClone(sig, hash, p, w)
    ensures w in clusters[c]
  {
    var e :| 0 <= e < |clusters| && w in clusters[e];
    assert c == e;
  }

  /** A clone tells its component: one of its regions starts where a window of the component does. */
  lemma CloneTellsComponent(sig: seq<seq<Line>>, hash: string -> int, clusters: seq<seq<int>>, c: int, d: int, p: int,
                            q: int, clone: Clone)
    requires Clustering(sig, hash, clusters) && 0 <= c < |clusters| && 0 <= d < |clusters|
    requires p in clusters[c] && q in clusters[d] && CloneOf(sig, hash, p, clone) && CloneOf(sig, hash, q, clone)
    ensures c == d
  {
    assert Matched(sig, hash, p);
    var f, x := RegionOfWindow(sig, hash, p, clone);
    var w := FirstWindow(sig, hash, p, f, x);
    var v := FirstWindow(sig, hash, q, f, x);
    InOneCluster(sig, hash, clusters, c, p, w);
    InOneCluster(sig, hash, clusters, d, q, w);
    InTwoClusters(sig, hash, clusters, c, d, w);
  }

  lemma InTwoClusters(sig: seq<seq<Line>>, hash: string -> int, clusters: seq<seq<int>>, c: int, d: int, w: int)
    requires Clustering(sig, hash, clusters) && 0 <= c < |clusters| && 0 <= d < |clusters|
    requires w in clusters[c] && w in clusters[d]
    ensures c == d
  {
    assert Chain(sig, hash, [w]);
    assert SameClone(sig, hash, w, w);
  }

  lemma FirstWindow(sig: seq<seq<Line>>, hash: string -> int, p: int, f: int, x: int) returns (w: int)
    requires InComponent(sig, hash, p, f, x) && !InComponent(sig, hash, p, f, x - 1)
    ensures Matched(sig, hash, w) && SameClone(sig, hash, p, w) && w == f * POS + x
  {
    w :| Matched(sig, hash, w) && SameClone(sig, hash, p, w) && File(w) == f && Index(w) <= x < Index(w) + CLONE_WINDOW;
    assert Index(w) == x;
  }

  /** Where the clones that are kept stood before. */
  lemma {:induction false} RepeatedAt(swept: seq<Clone>) returns (at: seq<nat>)
    ensures |at| == |Repeated(swept)|
    ensures forall k :: 0 <= k < |at| ==> at[k] < |swept| && swept[at[k]] == Repeated(swept)[k]
    ensures forall j, k :: 0 <= j < k < |at| ==> at[j] != at[k]
  {
    at := [];
    if swept != [] {
      var init, last := swept[..|swept| - 1], swept[|swept| - 1];
      var before := RepeatedAt(init);
      at := before + if |last.regions| < 2 then [] else [|swept| - 1];
    }
  }

  lemma OncePerComponent(sig: seq<seq<Line>>, hash: string -> int, clusters: seq<seq<int>>, swept: seq<Clone>,
                         results: seq<Clone>, i: int, j: int, p: int)
    requires Clustering(sig, hash, clusters) && AllSwept(sig, clusters, swept)
    requires results == Sort(MoreLines, Repeated(swept)) && 0 <= i < j < |results| && Matched(sig, hash, p)
    ensures !(CloneOf(sig, hash, p, results[i]) && CloneOf(sig, hash, p, results[j]))
  {
    assert Ordering(MoreLines);
    var order := SortIsStable(MoreLines, Repeated(swept));
    var at := RepeatedAt(swept);
    var a, b := at[order[i]], at[order[j]];
    assert results[i] == swept[a] && results[j] == swept[b] && a != b;
    var e :| 0 <= e < |clusters| && p in clusters[e];
    forall c: nat | c < |swept| && CloneOf(sig, hash, p, swept[c]) ensures c == e {
      var q := clusters[c][0];
      assert q in clusters[c];
      ClusterIsComponent(sig, hash, clusters, c, q, swept[c]);
      CloneTellsComponent(sig, hash, clusters, e, c, p, q, swept[c]);
    }
  }

  /**
   * What is reported: component by component of the matched windows, each once, the runs of lines it
   * covers, if there are two or more; the largest first.
   */
  lemma ReportMeaning(sig: seq<seq<Line>>, hash: string -> int, results: seq<Clone>)
    requires Reported(sig, hash, results)
    ensures forall i, j :: 0 <= i < j < |results| ==> results[i].sigLines >= results[j].sigLines
    ensures forall clone :: clone in results ==>
              |clone.regions| >= 2 && exists p :: Matched(sig, hash, p) && CloneOf(sig, hash, p, clone)
    ensures forall p :: Matched(sig, hash, p) ==>
              exists clone :: CloneOf(sig, hash, p, clone) && (clone in results <==> |clone.regions| >= 2)
    ensures forall i, j, p :: 0 <= i < j < |results| && Matched(sig, hash, p) ==>
              !(CloneOf(sig, hash, p, results[i]) && CloneOf(sig, hash, p, results[j]))
  {
    var clusters, swept :| Clustering(sig, hash, clusters) && AllSwept(sig, clusters, swept)
                           && results == Sort(MoreLines, Repeated(swept));
    SortedReport(swept);
    forall i, j | 0 <= i < j < |results| ensures results[i].sigLines >= results[j].sigLines {
      assert !MoreLines(results[j], results[i]);
    }
    forall i, j, p | 0 <= i < j < |results| && Matched(sig, hash, p)
      ensures !(CloneOf(sig, hash, p, results[i]) && CloneOf(sig, hash, p, results[j]))
    {
      OncePerComponent(sig, hash, clusters, swept, results, i, j, p);
    }
    forall clone | clone in results ensures exists p :: Matched(sig, hash, p) && CloneOf(sig, hash, p, clone) {
      var c :| 0 <= c < |swept| && swept[c] == clone;
      var p := clusters[c][0];
      assert p in clusters[c];
      ClusterIsComponent(sig, hash, clusters, c, p, clone);
    }
    forall p | Matched(sig, hash, p)
      ensures exists clone :: CloneOf(sig, hash, p, clone) && (clone in results <==> |clone.regions| >= 2)
    {
      var c :| 0 <= c < |clusters| && p in clusters[c];
      ClusterIsComponent(sig, hash, clusters, c, p, swept[c]);
      assert swept[c] in swept;
    }
  }
}
