/** Interval lists that stand for sets of lines: one form, three engines. */
module Intervals {
  import opened Sorting

  datatype Interval = Interval(lo: int, hi: int)

  predicate Has(iv: Interval, x: int) { iv.lo <= x <= iv.hi }

  predicate Covers(ivs: seq<Interval>, x: int) {
    exists i :: 0 <= i < |ivs| && Has(ivs[i], x)
  }

  /** `ivs` covers exactly the lines of `jvs`. */
  ghost predicate SameLines(ivs: seq<Interval>, jvs: seq<Interval>) {
    forall x :: Covers(ivs, x) <==> Covers(jvs, x)
  }

  predicate Nonempty(ivs: seq<Interval>) {
    forall i :: 0 <= i < |ivs| ==> ivs[i].lo <= ivs[i].hi
  }

  /** Ascending, with at least one line between neighbours; an interval may be empty (`lo == hi + 1`). */
  predicate Spaced(ivs: seq<Interval>) {
    && (forall i :: 0 <= i < |ivs| ==> ivs[i].lo <= ivs[i].hi + 1)
    && forall i, j :: 0 <= i < j < |ivs| ==> ivs[i].hi + 1 < ivs[j].lo
  }

  predicate Canonical(ivs: seq<Interval>) {
    Spaced(ivs) && Nonempty(ivs)
  }

  lemma CoversSnoc(ivs: seq<Interval>, iv: Interval, x: int)
    ensures Covers(ivs + [iv], x) <==> Covers(ivs, x) || Has(iv, x)
  {
    var all := ivs + [iv];
    if Covers(ivs, x) {
      var i :| 0 <= i < |ivs| && Has(ivs[i], x);
      assert Has(all[i], x);
    }
    if Has(iv, x) { assert Has(all[|ivs|], x); }
  }

  lemma CoversTail(ivs: seq<Interval>, x: int)
    requires ivs != []
    ensures Covers(ivs, x) <==> Has(ivs[0], x) || Covers(ivs[1..], x)
  {
    if Covers(ivs[1..], x) {
      var i :| 0 <= i < |ivs| - 1 && Has(ivs[1..][i], x);
      assert Has(ivs[i + 1], x);
    }
    if Covers(ivs, x) && !Has(ivs[0], x) {
      var i :| 0 <= i < |ivs| && Has(ivs[i], x);
      assert Has(ivs[1..][i - 1], x);
    }
  }

  lemma CoversMembers(ivs: seq<Interval>, jvs: seq<Interval>)
    requires forall iv :: iv in ivs <==> iv in jvs
    ensures SameLines(ivs, jvs)
  {
    forall x ensures Covers(ivs, x) <==> Covers(jvs, x) {
      if Covers(ivs, x) {
        var i :| 0 <= i < |ivs| && Has(ivs[i], x);
        assert ivs[i] in jvs;
      }
      if Covers(jvs, x) {
        var i :| 0 <= i < |jvs| && Has(jvs[i], x);
        assert jvs[i] in ivs;
      }
    }
  }

  /** A set of lines has one canonical list. */
  lemma {:induction false} CanonicalIsUnique(a: seq<Interval>, b: seq<Interval>)
    requires Canonical(a) && Canonical(b) && SameLines(a, b)
    ensures a == b
    decreases |a|
  {
    if a != [] { assert Has(a[0], a[0].lo); assert Covers(a, a[0].lo); }
    if b != [] { assert Has(b[0], b[0].lo); assert Covers(b, b[0].lo); }
    if a != [] {
      FirstIntervals(a, b);
      FirstIntervals(b, a);
      forall x ensures Covers(a[1..], x) <==> Covers(b[1..], x) { TailsCoverSame(a, b, x); }
      CanonicalIsUnique(a[1..], b[1..]);
      assert a == [a[0]] + a[1..] && b == [b[0]] + b[1..];
    }
  }

  lemma TailsCoverSame(a: seq<Interval>, b: seq<Interval>, x: int)
    requires Spaced(a) && Spaced(b) && a != [] && b != [] && a[0] == b[0] && (Covers(a, x) <==> Covers(b, x))
    ensures Covers(a[1..], x) <==> Covers(b[1..], x)
  {
    CoversTail(a, x);
    CoversTail(b, x);
    TailIsAfter(a, x);
    TailIsAfter(b, x);
  }

  lemma TailIsAfter(a: seq<Interval>, x: int)
    requires Spaced(a) && a != []
    ensures Covers(a[1..], x) ==> a[0].hi + 1 < x
  {
    if Covers(a[1..], x) {
      var i :| 0 <= i < |a| - 1 && Has(a[1..][i], x);
      assert a[1..][i] == a[i + 1];
    }
  }

  lemma FirstIntervals(a: seq<Interval>, b: seq<Interval>)
    requires Canonical(a) && Canonical(b) && SameLines(a, b) && a != [] && b != []
    ensures a[0].lo >= b[0].lo && (a[0].lo == b[0].lo ==> a[0].hi <= b[0].hi)
  {
    assert Has(a[0], a[0].lo);
    assert Covers(b, a[0].lo);
    if a[0].lo == b[0].lo && a[0].hi > b[0].hi {
      assert Has(a[0], b[0].hi + 1);
      assert Covers(b, b[0].hi + 1);
      CoversTail(b, b[0].hi + 1);
      TailIsAfter(b, b[0].hi + 1);
    }
  }

  // ---- reading a canonical list ----

  /** Some single interval contains `[s, e]`. */
  predicate Inside(ivs: seq<Interval>, s: int, e: int) {
    exists i :: 0 <= i < |ivs| && ivs[i].lo <= s && e <= ivs[i].hi
  }

  predicate CoversAll(ivs: seq<Interval>, s: int, e: int) {
    forall x :: s <= x <= e ==> Covers(ivs, x)
  }

  /** On spaced lists, containment in one interval is the same as coverage line by line. */
  lemma {:induction false} InsideIsCoverage(ivs: seq<Interval>, s: int, e: int)
    requires Spaced(ivs) && s <= e
    ensures Inside(ivs, s, e) <==> CoversAll(ivs, s, e)
  {
    if Inside(ivs, s, e) {
      var i :| 0 <= i < |ivs| && ivs[i].lo <= s && e <= ivs[i].hi;
      forall x | s <= x <= e ensures Covers(ivs, x) { assert Has(ivs[i], x); }
    } else if Covers(ivs, s) {
      var i :| 0 <= i < |ivs| && Has(ivs[i], s);
      assert ivs[i].hi < e;
      var x := ivs[i].hi + 1;
      forall j | 0 <= j < |ivs| ensures !Has(ivs[j], x) {
        if j > i { assert ivs[i].hi + 1 < ivs[j].lo; }
        if j < i { assert ivs[j].hi + 1 < ivs[i].lo; }
      }
      assert s <= x <= e && !Covers(ivs, x);
    }
  }

  method Contained(s: int, e: int, ivs: seq<Interval>) returns (r: bool)
    ensures r <==> Inside(ivs, s, e)
  {
    for i := 0 to |ivs|
      invariant !Inside(ivs[..i], s, e)
    {
      if ivs[i].lo <= s && ivs[i].hi >= e { return true; }
      assert ivs[..i + 1][..i] == ivs[..i];
    }
    assert ivs[..|ivs|] == ivs;
    r := false;
  }

  /** The early exit on `a > s` loses nothing on an ascending list. */
  method IsCovered(ivs: seq<Interval>, target: Interval) returns (r: bool)
    requires Spaced(ivs)
    ensures r <==> Inside(ivs, target.lo, target.hi)
    ensures target.lo <= target.hi ==> (r <==> CoversAll(ivs, target.lo, target.hi))
  {
    if target.lo <= target.hi { InsideIsCoverage(ivs, target.lo, target.hi); }
    for i := 0 to |ivs|
      invariant forall j :: 0 <= j < i ==> !(ivs[j].lo <= target.lo && target.hi <= ivs[j].hi)
    {
      if ivs[i].lo <= target.lo && target.hi <= ivs[i].hi { return true; }
      if ivs[i].lo > target.lo {
        forall j | i < j < |ivs| ensures ivs[j].lo > target.lo {}
        return false;
      }
    }
    r := false;
  }

  /** The binary search on normalised ranges. */
  method IsVisible(merged: seq<Interval>, line: int) returns (r: bool)
    requires Canonical(merged)
    ensures r <==> Covers(merged, line)
  {
    var low, high := 0, |merged|;
    while low < high
      invariant 0 <= low <= high <= |merged|
      invariant forall i :: 0 <= i < low ==> merged[i].hi < line
      invariant forall i :: high <= i < |merged| ==> line < merged[i].lo
    {
      var mid := (low + high) / 2;
      if line < merged[mid].lo {
        forall i | mid <= i < |merged| ensures line < merged[i].lo {}
        high := mid;
      } else if line > merged[mid].hi {
        forall i | 0 <= i <= mid ensures merged[i].hi < line {}
        low := mid + 1;
      } else {
        assert Has(merged[mid], line);
        return true;
      }
    }
    r := false;
  }

  // ---- building it ----

  predicate TupleLess(a: Interval, b: Interval) {
    a.lo < b.lo || (a.lo == b.lo && a.hi < b.hi)
  }

  function SortIntervals(ivs: seq<Interval>): seq<Interval> {
    Sort((a, b) => TupleLess(a, b), ivs)
  }

  lemma SortIntervalsFacts(ivs: seq<Interval>)
    requires Nonempty(ivs)
    ensures var r := SortIntervals(ivs);
      |r| == |ivs| && Nonempty(r) && SameLines(r, ivs) && forall i, j :: 0 <= i < j < |r| ==> r[i].lo <= r[j].lo
  {
    var lt := (a: Interval, b: Interval) => TupleLess(a, b);
    SortPermutes(lt, ivs);
    SortSorts(lt, ivs);
    var r := SortIntervals(ivs);
    forall i | 0 <= i < |r| ensures r[i].lo <= r[i].hi { assert r[i] in ivs; }
    CoversMembers(r, ivs);
    forall i, j | 0 <= i < j < |r| ensures r[i].lo <= r[j].lo { assert !lt(r[j], r[i]); }
  }

  /** Extending the last interval of a list. */
  lemma CoversStretch(out: seq<Interval>, iv: Interval, x: int)
    requires out != [] && out[|out| - 1].lo <= iv.lo <= out[|out| - 1].hi + 1
    ensures var last := out[|out| - 1];
      Covers(out[..|out| - 1] + [Interval(last.lo, if last.hi >= iv.hi then last.hi else iv.hi)], x)
      <==> Covers(out, x) || Has(iv, x)
  {
    var init, last := out[..|out| - 1], out[|out| - 1];
    assert out == init + [last];
    CoversSnoc(init, last, x);
    CoversSnoc(init, Interval(last.lo, if last.hi >= iv.hi then last.hi else iv.hi), x);
  }

  /** One step of both merging loops. */
  function Absorb(out: seq<Interval>, iv: Interval): seq<Interval> {
    if out != [] && iv.lo <= out[|out| - 1].hi + 1 then
      out[|out| - 1 := out[|out| - 1].(hi := if out[|out| - 1].hi >= iv.hi then out[|out| - 1].hi else iv.hi)]
    else out + [iv]
  }

  lemma AbsorbFacts(out: seq<Interval>, iv: Interval)
    requires Canonical(out) && iv.lo <= iv.hi && (out != [] ==> out[|out| - 1].lo <= iv.lo)
    ensures var r := Absorb(out, iv);
      r != [] && Canonical(r) && r[|r| - 1].lo <= iv.lo && forall x :: Covers(r, x) <==> Covers(out, x) || Has(iv, x)
  {
    var r := Absorb(out, iv);
    if out != [] && iv.lo <= out[|out| - 1].hi + 1 {
      var last := out[|out| - 1];
      assert r == out[..|out| - 1] + [Interval(last.lo, if last.hi >= iv.hi then last.hi else iv.hi)];
      forall x ensures Covers(r, x) <==> Covers(out, x) || Has(iv, x) { CoversStretch(out, iv, x); }
    } else {
      forall x ensures Covers(r, x) <==> Covers(out, x) || Has(iv, x) { CoversSnoc(out, iv, x); }
    }
  }

  /** What the merging loops keep: `out` is the canonical list of the first `i` sorted intervals. */
  ghost predicate Folded(out: seq<Interval>, sorted: seq<Interval>, i: nat)
    requires i <= |sorted|
  {
    && Canonical(out) && SameLines(out, sorted[..i])
    && (out == [] <==> i == 0) && (out != [] ==> out[|out| - 1].lo <= sorted[i - 1].lo)
  }

  lemma FoldStep(out: seq<Interval>, sorted: seq<Interval>, i: nat)
    requires i < |sorted| && Folded(out, sorted, i) && Nonempty(sorted)
    requires i > 0 ==> sorted[i - 1].lo <= sorted[i].lo
    ensures Folded(Absorb(out, sorted[i]), sorted, i + 1)
  {
    AbsorbFacts(out, sorted[i]);
    assert sorted[..i + 1] == sorted[..i] + [sorted[i]];
    forall x ensures Covers(Absorb(out, sorted[i]), x) <==> Covers(sorted[..i + 1], x) {
      CoversSnoc(sorted[..i], sorted[i], x);
    }
  }

  /** Batch merge: sorts, then folds each interval into the last one or appends it. */
  method Merge(ivs: seq<Interval>) returns (out: seq<Interval>)
    requires Nonempty(ivs)
    ensures Canonical(out) && SameLines(out, ivs)
  {
    if ivs == [] { return []; }
    SortIntervalsFacts(ivs);
    var sorted := SortIntervals(ivs);
    out := [sorted[0]];
    assert sorted[..1] == [sorted[0]];
    for i := 1 to |sorted|
      invariant Folded(out, sorted, i)
    {
      FoldStep(out, sorted, i);
      var last := out[|out| - 1];
      if sorted[i].lo <= last.hi + 1 {
        out := out[|out| - 1 := Interval(last.lo, if last.hi >= sorted[i].hi then last.hi else sorted[i].hi)];
      } else {
        out := out + [sorted[i]];
      }
    }
    assert sorted[..|sorted|] == sorted;
  }

  const U32_MAX := 0xFFFF_FFFF

  function SaturatingNext(x: int): int { if x >= U32_MAX then U32_MAX else x + 1 }

  predicate KeptRange(r: Interval) { r.lo > 0 && r.hi >= r.lo }

  function KeptRanges(ranges: seq<Interval>): (r: seq<Interval>)
    ensures Nonempty(r) && forall iv :: iv in r <==> iv in ranges && KeptRange(iv)
  {
    if ranges == [] then []
    else if KeptRange(ranges[0]) then [ranges[0]] + KeptRanges(ranges[1..])
    else KeptRanges(ranges[1..])
  }

  /** The same on 32-bit line numbers: drops invalid ranges, and cannot overflow at the top. */
  method NormalizeRanges(ranges: seq<Interval>) returns (merged: seq<Interval>)
    requires forall r :: r in ranges ==> 0 <= r.lo <= U32_MAX && 0 <= r.hi <= U32_MAX
    ensures Canonical(merged) && SameLines(merged, KeptRanges(ranges))
  {
    var kept := KeptRanges(ranges);
    SortIntervalsFacts(kept);
    var sorted := SortIntervals(kept);
    SortedStayBounded(ranges, sorted);
    merged := MergeSorted(sorted);
  }

  /** One turn of the loop, which cannot overflow: a list that ends at the top absorbs what follows. */
  method AbsorbSaturating(merged: seq<Interval>, iv: Interval) returns (out: seq<Interval>)
    requires iv.lo <= U32_MAX && (merged != [] ==> merged[|merged| - 1].hi <= U32_MAX)
    ensures out == Absorb(merged, iv)
  {
    if |merged| > 0 && iv.lo <= SaturatingNext(merged[|merged| - 1].hi) {
      var last := merged[|merged| - 1];
      out := merged[|merged| - 1 := last.(hi := if last.hi >= iv.hi then last.hi else iv.hi)];
    } else {
      out := merged + [iv];
    }
  }

  method MergeSorted(sorted: seq<Interval>) returns (merged: seq<Interval>)
    requires Nonempty(sorted) && forall i, j :: 0 <= i < j < |sorted| ==> sorted[i].lo <= sorted[j].lo
    requires forall i :: 0 <= i < |sorted| ==> sorted[i].lo <= U32_MAX && sorted[i].hi <= U32_MAX
    ensures Canonical(merged) && SameLines(merged, sorted)
  {
    merged := [];
    for i := 0 to |sorted|
      invariant Folded(merged, sorted, i)
      invariant merged != [] ==> merged[|merged| - 1].hi <= U32_MAX
    {
      FoldStep(merged, sorted, i);
      merged := AbsorbSaturating(merged, sorted[i]);
    }
    assert sorted[..|sorted|] == sorted;
  }

  lemma SortedStayBounded(ranges: seq<Interval>, sorted: seq<Interval>)
    requires sorted == SortIntervals(KeptRanges(ranges))
    requires forall r :: r in ranges ==> 0 <= r.lo <= U32_MAX && 0 <= r.hi <= U32_MAX
    ensures forall i :: 0 <= i < |sorted| ==> sorted[i].lo <= U32_MAX && sorted[i].hi <= U32_MAX
  {
    var kept := KeptRanges(ranges);
    SortPermutes((a, b) => TupleLess(a, b), kept);
    forall i | 0 <= i < |sorted| ensures sorted[i].lo <= U32_MAX && sorted[i].hi <= U32_MAX {
      assert sorted[i] in kept;
    }
  }

  /** Some valid range holds line `x`. */
  predicate Shown(ranges: seq<Interval>, x: int) {
    exists r :: r in ranges && KeptRange(r) && Has(r, x)
  }

  lemma KeptRangesCover(ranges: seq<Interval>)
    ensures forall x :: Covers(KeptRanges(ranges), x) <==> Shown(ranges, x)
  {
    var kept := KeptRanges(ranges);
    forall x ensures Covers(kept, x) <==> Shown(ranges, x) {
      if Covers(kept, x) {
        var i :| 0 <= i < |kept| && Has(kept[i], x);
        assert kept[i] in kept;
      }
      if r :| r in ranges && KeptRange(r) && Has(r, x) {
        assert r in kept;
      }
    }
  }

  /** Where the one pass stands: what is out, the interval being grown, and whether it is out already. */
  datatype Insertion = Insertion(out: seq<Interval>, s: int, e: int, placed: bool)

  ghost predicate InsertOrder(ivs: seq<Interval>, item: Interval, i: nat, t: Insertion) {
    && t.s <= t.e + 1 && (item.lo <= item.hi ==> t.s <= t.e)
    && Spaced(t.out) && (Canonical(ivs) && item.lo <= item.hi ==> Nonempty(t.out))
    && (!t.placed ==> forall k :: 0 <= k < |t.out| ==> t.out[k].hi + 1 < t.s)
    && (forall k, j :: 0 <= k < |t.out| && i <= j < |ivs| ==> t.out[k].hi + 1 < ivs[j].lo)
    && (t.placed ==> forall j :: i <= j < |ivs| ==> t.e + 1 < ivs[j].lo)
  }

  predicate Pending(t: Insertion, x: int) { Covers(t.out, x) || (!t.placed && t.s <= x <= t.e) }

  ghost predicate InsertLines(ivs: seq<Interval>, item: Interval, i: nat, t: Insertion)
    requires i <= |ivs|
  {
    forall x :: Pending(t, x) <==> Covers(ivs[..i], x) || Has(item, x)
  }

  /** One turn of the loop: the next interval goes out, behind the grown one if that is due, or grows it. */
  function InsertStep(t: Insertion, iv: Interval): Insertion {
    if iv.hi + 1 < t.s then t.(out := t.out + [iv])
    else if t.e + 1 < iv.lo then
      t.(out := (if t.placed then t.out else t.out + [Interval(t.s, t.e)]) + [iv], placed := true)
    else t.(s := if iv.lo < t.s then iv.lo else t.s, e := if iv.hi > t.e then iv.hi else t.e)
  }

  /** The next interval goes out in front. */
  lemma OutKeepsOrder(ivs: seq<Interval>, item: Interval, i: nat, t: Insertion)
    requires Spaced(ivs) && i < |ivs| && InsertOrder(ivs, item, i, t) && ivs[i].hi + 1 < t.s
    ensures InsertOrder(ivs, item, i + 1, InsertStep(t, ivs[i]))
  {
  }

  /** The next interval goes out behind the grown one. */
  lemma BehindKeepsOrder(ivs: seq<Interval>, item: Interval, i: nat, t: Insertion)
    requires Spaced(ivs) && i < |ivs| && InsertOrder(ivs, item, i, t)
    requires !(ivs[i].hi + 1 < t.s) && t.e + 1 < ivs[i].lo
    ensures InsertOrder(ivs, item, i + 1, InsertStep(t, ivs[i]))
  {
    if t.placed {
      PlacedKeepsOrder(ivs, item, i, t);
    } else {
      PlaceKeepsOrder(ivs, item, i, t);
      PlacedKeepsOrder(ivs, item, i, t.(out := t.out + [Interval(t.s, t.e)], placed := true));
    }
  }

  lemma PlaceKeepsOrder(ivs: seq<Interval>, item: Interval, i: nat, t: Insertion)
    requires Spaced(ivs) && i < |ivs| && InsertOrder(ivs, item, i, t) && !t.placed && t.e + 1 < ivs[i].lo
    ensures InsertOrder(ivs, item, i, t.(out := t.out + [Interval(t.s, t.e)], placed := true))
  {
    assert forall j :: i < j < |ivs| ==> ivs[i].hi + 1 < ivs[j].lo;
  }

  lemma PlacedKeepsOrder(ivs: seq<Interval>, item: Interval, i: nat, t: Insertion)
    requires Spaced(ivs) && i < |ivs| && InsertOrder(ivs, item, i, t) && t.placed
    ensures InsertOrder(ivs, item, i + 1, t.(out := t.out + [ivs[i]]))
  {
  }

  /** The next interval is grown over. */
  lemma GrowKeepsOrder(ivs: seq<Interval>, item: Interval, i: nat, t: Insertion)
    requires Spaced(ivs) && i < |ivs| && InsertOrder(ivs, item, i, t)
    requires !(ivs[i].hi + 1 < t.s) && !(t.e + 1 < ivs[i].lo)
    ensures InsertOrder(ivs, item, i + 1, InsertStep(t, ivs[i]))
  {
    assert forall j :: i < j < |ivs| ==> ivs[i].hi + 1 < ivs[j].lo;
  }

  lemma InsertKeepsOrder(ivs: seq<Interval>, item: Interval, i: nat, t: Insertion)
    requires Spaced(ivs) && i < |ivs| && InsertOrder(ivs, item, i, t)
    ensures InsertOrder(ivs, item, i + 1, InsertStep(t, ivs[i]))
  {
    if ivs[i].hi + 1 < t.s {
      OutKeepsOrder(ivs, item, i, t);
    } else if t.e + 1 < ivs[i].lo {
      BehindKeepsOrder(ivs, item, i, t);
    } else {
      GrowKeepsOrder(ivs, item, i, t);
    }
  }

  lemma InsertKeepsLines(ivs: seq<Interval>, item: Interval, i: nat, t: Insertion)
    requires Spaced(ivs) && i < |ivs| && InsertOrder(ivs, item, i, t) && InsertLines(ivs, item, i, t)
    ensures InsertLines(ivs, item, i + 1, InsertStep(t, ivs[i]))
  {
    var iv, after := ivs[i], InsertStep(t, ivs[i]);
    assert ivs[..i + 1] == ivs[..i] + [iv];
    forall x ensures Pending(after, x) <==> Covers(ivs[..i + 1], x) || Has(item, x) {
      CoversSnoc(ivs[..i], iv, x);
      StepLines(t, iv, x);
    }
  }

  lemma StepLines(t: Insertion, iv: Interval, x: int)
    requires t.s <= t.e + 1 && iv.lo <= iv.hi + 1
    requires t.placed ==> t.e + 1 < iv.lo
    ensures Pending(InsertStep(t, iv), x) <==> Pending(t, x) || Has(iv, x)
  {
    CoversSnoc(t.out, iv, x);
    CoversSnoc(t.out, Interval(t.s, t.e), x);
    CoversSnoc(t.out + [Interval(t.s, t.e)], iv, x);
  }

  /** Inserts an interval into a list in one pass, growing it over everything it touches. */
  method AddInterval(ivs: seq<Interval>, item: Interval) returns (out: seq<Interval>)
    requires Spaced(ivs) && item.lo <= item.hi + 1
    ensures Spaced(out) && forall x :: Covers(out, x) <==> Covers(ivs, x) || Has(item, x)
    ensures Canonical(ivs) && item.lo <= item.hi ==> Canonical(out)
  {
    var s, e := item.lo, item.hi;
    out := [];
    var placed := false;
    for i := 0 to |ivs|
      invariant InsertOrder(ivs, item, i, Insertion(out, s, e, placed))
      invariant InsertLines(ivs, item, i, Insertion(out, s, e, placed))
    {
      InsertKeepsOrder(ivs, item, i, Insertion(out, s, e, placed));
      InsertKeepsLines(ivs, item, i, Insertion(out, s, e, placed));
      out, s, e, placed := TakeTurn(out, s, e, placed, ivs[i]);
    }
    assert ivs[..|ivs|] == ivs;
    ghost var t := Insertion(out, s, e, placed);
    if !placed {
      forall x { CoversSnoc(out, Interval(s, e), x); }
      out := out + [Interval(s, e)];
    }
    assert forall x :: Covers(out, x) <==> Pending(t, x);
  }

  method TakeTurn(out0: seq<Interval>, s0: int, e0: int, placed0: bool, iv: Interval)
    returns (out: seq<Interval>, s: int, e: int, placed: bool)
    ensures Insertion(out, s, e, placed) == InsertStep(Insertion(out0, s0, e0, placed0), iv)
  {
    out, s, e, placed := out0, s0, e0, placed0;
    var a, b := iv.lo, iv.hi;
    if b + 1 < s {
      out := out + [iv];
    } else if e + 1 < a {
      if !placed {
        out := out + [Interval(s, e)];
        placed := true;
      }
      out := out + [iv];
    } else {
      s := if a < s then a else s;
      e := if b > e then b else e;
    }
  }

  /** Adding one interval after another. */
  method AddAll(items: seq<Interval>) returns (out: seq<Interval>)
    requires Nonempty(items)
    ensures Canonical(out) && SameLines(out, items)
  {
    out := [];
    for i := 0 to |items|
      invariant Canonical(out) && SameLines(out, items[..i])
    {
      ghost var before := out;
      out := AddInterval(out, items[i]);
      assert items[..i + 1] == items[..i] + [items[i]];
      forall x ensures Covers(out, x) <==> Covers(items[..i + 1], x) { CoversSnoc(items[..i], items[i], x); }
    }
    assert items[..|items|] == items;
  }

  /** Whatever engine built them, and in whatever order the intervals came, two lists that stand
      for the same valid intervals are the same list. */
  lemma {:induction false} EnginesAgree(ivs: seq<Interval>, jvs: seq<Interval>, out1: seq<Interval>,
                                        out2: seq<Interval>)
    requires forall iv :: iv in ivs <==> iv in jvs
    requires Canonical(out1) && SameLines(out1, ivs)
    requires Canonical(out2) && SameLines(out2, jvs)
    ensures out1 == out2
  {
    CoversMembers(ivs, jvs);
    CanonicalIsUnique(out1, out2);
  }
}
