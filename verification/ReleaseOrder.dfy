/** The order in which a fixed changelog stands: its releases, and the categories of each. */
module ReleaseOrder {
  import opened Cutting
  import opened ChangelogDocument
  import opened ChangelogItems
  import opened ChangelogFix
  import opened ChangelogConverge
  import opened ChangelogOnePass
  import opened ChangelogFixer
  import opened Sorting

  // ---- versions ----

  /** Missing parts are zero. */
  function Part(v: seq<int>, k: nat): int { if k < |v| then v[k] else 0 }

  ghost predicate NewerAt(v: seq<int>, w: seq<int>, k: nat) {
    Part(v, k) > Part(w, k) && forall j: nat :: j < k ==> Part(v, j) == Part(w, j)
  }

  /** The first part that differs is larger. */
  ghost predicate Newer(v: seq<int>, w: seq<int>) { exists k :: NewerAt(v, w, k) }

  ghost predicate SameVersion(v: seq<int>, w: seq<int>) { forall k: nat :: Part(v, k) == Part(w, k) }

  lemma PartOfTail(v: seq<int>, k: nat)
    ensures Part(Tail(v), k) == Part(v, k + 1) && Part(v, 0) == Head(v)
  {
  }

  lemma NewerTail(a: seq<int>, b: seq<int>, k: nat)
    requires Head(a) == Head(b) && NewerAt(Tail(a), Tail(b), k)
    ensures NewerAt(a, b, k + 1)
  {
    PartOfTail(a, k);
    PartOfTail(b, k);
    forall j: nat | j < k + 1 ensures Part(a, j) == Part(b, j) {
      if j > 0 {
        PartOfTail(a, j - 1);
        PartOfTail(b, j - 1);
      }
    }
  }

  lemma {:induction false} CompareIsNewer(a: seq<int>, b: seq<int>)
    ensures CompareDesc(a, b) < 0 ==> Newer(a, b)
    ensures CompareDesc(a, b) == 0 ==> SameVersion(a, b)
    decreases |a| + |b|
  {
    if a == [] && b == [] {
    } else if Head(a) != Head(b) {
      CompareStep(a, b);
      if Head(a) > Head(b) { assert NewerAt(a, b, 0); }
    } else {
      CompareStep(a, b);
      CompareIsNewer(Tail(a), Tail(b));
      if CompareDesc(a, b) < 0 {
        var k: nat :| NewerAt(Tail(a), Tail(b), k);
        NewerTail(a, b, k);
      } else if CompareDesc(a, b) == 0 {
        forall k: nat ensures Part(a, k) == Part(b, k) {
          if k > 0 { PartOfTail(a, k - 1); PartOfTail(b, k - 1); }
        }
      }
    }
  }

  // ---- releases ----

  /** Where a release from place `i` and one from place `j` stand in this order. */
  ghost predicate Precedes(versions: Versions, a: Release, b: Release, i: nat, j: nat) {
    if TitleOf(a.heading) == "Unreleased" || TitleOf(b.heading) == "Unreleased" then
      TitleOf(a.heading) == "Unreleased" && (TitleOf(b.heading) == "Unreleased" ==> i < j)
    else
      var v, w := versions(TitleOf(a.heading)), versions(TitleOf(b.heading));
      Newer(v, w) || (SameVersion(v, w) && i < j)
  }

  /** `picked` are the releases at the ascending places `q`, all of them unreleased or none. */
  ghost predicate Places(releases: seq<Release>, picked: seq<Release>, u: bool, q: seq<nat>) {
    && |q| == |picked|
    && (forall i :: 0 <= i < |q| ==> q[i] < |releases| && picked[i] == releases[q[i]] && Unreleased(picked[i]) == u)
    && forall i, j :: 0 <= i < j < |q| ==> q[i] < q[j]
  }

  lemma {:induction false} PickPlaces(releases: seq<Release>, u: bool) returns (q: seq<nat>)
    ensures Places(releases, Pick(releases, u), u, q)
  {
    q := [];
    if releases != [] {
      var r, rest := releases[0], releases[1..];
      q := PickPlaces(rest, u);
      PlacesShift(r, rest, Pick(rest, u), u, q);
      q := Shifted(q);
      assert [r] + rest == releases;
      if Unreleased(r) == u {
        PlacesFirst(releases, Pick(rest, u), u, q);
        q := [0] + q;
      } else {
        assert [] + Pick(rest, u) == Pick(rest, u);
      }
    }
  }

  lemma PlacesShift(r: Release, rest: seq<Release>, picked: seq<Release>, u: bool, q: seq<nat>)
    requires Places(rest, picked, u, q)
    ensures Places([r] + rest, picked, u, Shifted(q))
  {
  }

  lemma PlacesFirst(releases: seq<Release>, picked: seq<Release>, u: bool, q: seq<nat>)
    requires releases != [] && Unreleased(releases[0]) == u && Places(releases, picked, u, q)
    requires forall i :: 0 <= i < |q| ==> q[i] > 0
    ensures Places(releases, [releases[0]] + picked, u, [0] + q)
  {
  }

  lemma {:induction false} PickSizes(releases: seq<Release>)
    ensures |Pick(releases, true)| + |Pick(releases, false)| == |releases|
  {
    if releases != [] { PickSizes(releases[1..]); }
  }

  function Through(q: seq<nat>, p: seq<nat>): seq<nat>
    requires forall i :: 0 <= i < |p| ==> p[i] < |q|
  {
    seq(|p|, i requires 0 <= i < |p| => q[p[i]])
  }

  ghost predicate ReleasesStand(versions: Versions, before: seq<Release>, after: seq<Release>, p: seq<nat>) {
    && Rearranges(before, after, p)
    && forall i, j :: 0 <= i < j < |after| ==> Precedes(versions, after[i], after[j], p[i], p[j])
  }

  /** Unreleased sections come first, as they stood; then the released ones, newest first, with equal versions as
      they stood. */
  lemma SortedReleasesStand(versions: Versions, releases: seq<Release>) returns (p: seq<nat>)
    ensures ReleasesStand(versions, releases, SortReleases(versions, releases), p)
  {
    var first, second := Pick(releases, true), Pick(releases, false);
    var a := PickPlaces(releases, true);
    var b := PickPlaces(releases, false);
    VersionsOrder(versions);
    var s := SortIsStable(NewerFirst(versions), second);
    PickSizes(releases);
    p := a + Through(b, s);
    PlacesTogether(releases, first, second, a, b, s, Sort(NewerFirst(versions), second));
    StandTogether(versions, releases, first, second, a, b, s, Sort(NewerFirst(versions), second));
  }

  lemma PlacesTogether(releases: seq<Release>, first: seq<Release>, second: seq<Release>, a: seq<nat>, b: seq<nat>,
                       s: seq<nat>, sorted: seq<Release>)
    requires Places(releases, first, true, a) && Places(releases, second, false, b)
    requires Rearranges(second, sorted, s) && |a| + |b| == |releases|
    ensures Rearranges(releases, first + sorted, a + Through(b, s))
  {
    var p := a + Through(b, s);
    PlacesThrough(releases, second, b, s, sorted);
    forall i, j | 0 <= i < j < |p| ensures p[i] != p[j] {
      if i < |a| <= j {
        assert first[i] == releases[p[i]] && sorted[j - |a|] == releases[p[j]];
      } else if |a| <= i {
        assert Through(b, s)[i - |a|] != Through(b, s)[j - |a|];
      }
    }
  }

  lemma PlacesThrough(releases: seq<Release>, second: seq<Release>, b: seq<nat>, s: seq<nat>, sorted: seq<Release>)
    requires Places(releases, second, false, b) && Rearranges(second, sorted, s)
    ensures var q := Through(b, s);
      && |q| == |sorted|
      && (forall i :: 0 <= i < |q| ==> q[i] < |releases| && sorted[i] == releases[q[i]] && !Unreleased(sorted[i]))
      && forall i, j :: 0 <= i < j < |q| ==> q[i] != q[j]
  {
    forall i, j | 0 <= i < j < |s| ensures b[s[i]] != b[s[j]] {
      if s[i] < s[j] { assert b[s[i]] < b[s[j]]; } else { assert b[s[j]] < b[s[i]]; }
    }
  }

  lemma StandTogether(versions: Versions, releases: seq<Release>, first: seq<Release>, second: seq<Release>,
                      a: seq<nat>, b: seq<nat>, s: seq<nat>, sorted: seq<Release>)
    requires Places(releases, first, true, a) && Places(releases, second, false, b)
    requires Rearranges(second, sorted, s) && StablySorted(NewerFirst(versions), sorted, s)
    ensures var after, p := first + sorted, a + Through(b, s);
      forall i, j :: 0 <= i < j < |after| ==> Precedes(versions, after[i], after[j], p[i], p[j])
  {
    var after, p := first + sorted, a + Through(b, s);
    forall i, j | 0 <= i < j < |after| ensures Precedes(versions, after[i], after[j], p[i], p[j]) {
      if i >= |a| {
        SortedPair(versions, releases, second, b, s, sorted, i - |a|, j - |a|);
      } else if j >= |a| {
        MixedPair(versions, releases, first, second, a, b, s, sorted, i, j - |a|);
      } else {
        assert after[i] == first[i] && after[j] == first[j];
      }
    }
  }

  lemma MixedPair(versions: Versions, releases: seq<Release>, first: seq<Release>, second: seq<Release>, a: seq<nat>,
                  b: seq<nat>, s: seq<nat>, sorted: seq<Release>, i: nat, j: nat)
    requires Places(releases, first, true, a) && Places(releases, second, false, b)
    requires Rearranges(second, sorted, s) && i < |first| && j < |sorted|
    ensures Precedes(versions, first[i], sorted[j], a[i], b[s[j]])
  {
    assert sorted[j] == second[s[j]];
  }

  lemma SortedPair(versions: Versions, releases: seq<Release>, second: seq<Release>, b: seq<nat>, s: seq<nat>,
                   sorted: seq<Release>, i: nat, j: nat)
    requires Places(releases, second, false, b) && Rearranges(second, sorted, s)
    requires StablySorted(NewerFirst(versions), sorted, s) && i < j < |sorted|
    ensures Precedes(versions, sorted[i], sorted[j], b[s[i]], b[s[j]])
  {
    var v, w := versions(TitleOf(sorted[i].heading)), versions(TitleOf(sorted[j].heading));
    assert sorted[i] == second[s[i]] && sorted[j] == second[s[j]];
    if s[i] < s[j] { assert b[s[i]] < b[s[j]]; }
    CompareIsNewer(v, w);
    CompareFlips(v, w);
  }

  // ---- categories ----

  /** The five titles that have a place, and all others after them. */
  function Rank(title: string): nat {
    match title
    case "Breaking Changes" => 0
    case "Added" => 1
    case "Changed" => 2
    case "Fixed" => 3
    case "Removed" => 4
    case _ => 5
  }

  lemma RankIsOrder(title: string)
    ensures Rank(title) == TitleOrder(title)
  {
    assert OrderFrom(title, 5) == 5;
    assert OrderFrom(title, 4) == if title == "Removed" then 4 else 5;
    assert OrderFrom(title, 3) == if title == "Fixed" then 3 else OrderFrom(title, 4);
    assert OrderFrom(title, 2) == if title == "Changed" then 2 else OrderFrom(title, 3);
    assert OrderFrom(title, 1) == if title == "Added" then 1 else OrderFrom(title, 2);
    assert OrderFrom(title, 0) == if title == "Breaking Changes" then 0 else OrderFrom(title, 1);
  }

  /** The categories by the rank of their titles, ties as they stood. */
  ghost predicate StandByRank(before: seq<Category>, after: seq<Category>) {
    exists p :: Rearranges(before, after, p) && RanksRise(after, p)
  }

  ghost predicate RanksRise(after: seq<Category>, p: seq<nat>) {
    |p| == |after| && forall i, j :: 0 <= i < j < |after| ==>
      Rank(after[i].title) < Rank(after[j].title) || (Rank(after[i].title) == Rank(after[j].title) && p[i] < p[j])
  }

  lemma SortedCategoriesStand(categories: seq<Category>)
    ensures StandByRank(categories, Sort(Earlier, categories))
  {
    assert Ordering(Earlier);
    var after := Sort(Earlier, categories);
    var p := SortIsStable(Earlier, categories);
    forall i, j | 0 <= i < j < |after|
      ensures Rank(after[i].title) < Rank(after[j].title)
              || (Rank(after[i].title) == Rank(after[j].title) && p[i] < p[j])
    {
      RankIsOrder(after[i].title);
      RankIsOrder(after[j].title);
    }
    assert RanksRise(after, p);
  }

  /** Category `i` is the first of its title with any text. */
  predicate OpensTitle(categories: seq<Category>, i: nat) {
    && i < |categories| && Compact(categories[i].lines) != []
    && forall j :: 0 <= j < i ==> categories[j].title != categories[i].title || Compact(categories[j].lines) == []
  }

  /** One category for every title with text, in the order in which these appear, holding all texts of the title. */
  ghost predicate MergedInto(before: seq<Category>, after: seq<Category>) {
    exists q :: MergedAt(before, after, q)
  }

  ghost predicate MergedAt(before: seq<Category>, after: seq<Category>, q: seq<nat>) {
    && |q| == |after|
    && (forall k :: 0 <= k < |q| ==>
          OpensTitle(before, q[k])
          && after[k] == Category(before[q[k]].title, Joined(Pieces(before, before[q[k]].title))))
    && (forall k, l :: 0 <= k < l < |q| ==> q[k] < q[l])
    && forall i :: OpensTitle(before, i) ==> i in q
  }

  lemma {:induction false} MergeOrder(categories: seq<Category>) returns (q: seq<nat>)
    ensures TitlesAt(categories, MergeAll(categories), q)
  {
    q := [];
    if categories != [] {
      var init, last := categories[..|categories| - 1], categories[|categories| - 1];
      q := MergeOrder(init);
      q := TitleAdded(init, last, MergeAll(init), q);
      assert init + [last] == categories;
    }
  }

  /** The titles alone. */
  ghost predicate TitlesAt(before: seq<Category>, after: seq<Category>, q: seq<nat>) {
    && |q| == |after|
    && (forall k :: 0 <= k < |q| ==> OpensTitle(before, q[k]) && after[k].title == before[q[k]].title)
    && (forall k, l :: 0 <= k < l < |q| ==> q[k] < q[l])
    && forall i :: OpensTitle(before, i) ==> i in q
  }

  lemma OpensBefore(init: seq<Category>, last: Category, i: nat)
    requires i < |init|
    ensures OpensTitle(init + [last], i) <==> OpensTitle(init, i)
  {
    var more := init + [last];
    assert forall j :: 0 <= j <= i ==> more[j] == init[j];
  }

  lemma TitleAdded(init: seq<Category>, last: Category, done: seq<Category>, q: seq<nat>) returns (more: seq<nat>)
    requires TitlesAt(init, done, q)
    ensures TitlesAt(init + [last], AddCategory(done, last.title, last.lines), more)
  {
    var i := IndexOf(done, last.title);
    if Compact(last.lines) != [] && i == |done| {
      more := q + [|init|];
      OpensLast(init, last, done, q);
      NewTitle(init, last, done, q, Category(last.title, Compact(last.lines)));
    } else {
      more := q;
      KnownTitle(init, last, done, q);
      OldTitles(init, last, done, AddCategory(done, last.title, last.lines), q);
    }
  }

  lemma KnownTitle(init: seq<Category>, last: Category, done: seq<Category>, q: seq<nat>)
    requires TitlesAt(init, done, q)
    requires Compact(last.lines) == [] || IndexOf(done, last.title) < |done|
    ensures !OpensTitle(init + [last], |init|)
  {
    var all, i := init + [last], IndexOf(done, last.title);
    if Compact(last.lines) != [] {
      assert OpensTitle(init, q[i]) && all[q[i]] == init[q[i]];
      assert all[q[i]].title == all[|init|].title && Compact(all[q[i]].lines) != [];
    }
  }

  lemma OldTitles(init: seq<Category>, last: Category, done: seq<Category>, after: seq<Category>, q: seq<nat>)
    requires TitlesAt(init, done, q) && !OpensTitle(init + [last], |init|)
    requires |after| == |done| && forall k :: 0 <= k < |done| ==> after[k].title == done[k].title
    ensures TitlesAt(init + [last], after, q)
  {
    forall k: nat | k < |init| ensures OpensTitle(init + [last], k) <==> OpensTitle(init, k) {
      OpensBefore(init, last, k);
    }
  }

  lemma NewTitle(init: seq<Category>, last: Category, done: seq<Category>, q: seq<nat>, c: Category)
    requires TitlesAt(init, done, q) && OpensTitle(init + [last], |init|) && c.title == last.title
    ensures TitlesAt(init + [last], done + [c], q + [|init|])
  {
    var more := q + [|init|];
    forall k: nat | k < |init| ensures OpensTitle(init + [last], k) <==> OpensTitle(init, k) {
      OpensBefore(init, last, k);
    }
    forall k: nat | OpensTitle(init + [last], k) ensures k in more {
      if k < |init| { assert k in q; } else { assert more[|q|] == k; }
    }
  }

  lemma OpensLast(init: seq<Category>, last: Category, done: seq<Category>, q: seq<nat>)
    requires TitlesAt(init, done, q) && Compact(last.lines) != [] && IndexOf(done, last.title) == |done|
    ensures OpensTitle(init + [last], |init|)
  {
    var all := init + [last];
    forall j | 0 <= j < |init| && all[j].title == last.title ensures Compact(all[j].lines) == [] {
      if Compact(init[j].lines) != [] { var l := TitleIsThere(init, done, q, j); }
    }
  }

  lemma TitleIsThere(init: seq<Category>, done: seq<Category>, q: seq<nat>, j: nat) returns (l: nat)
    requires TitlesAt(init, done, q) && j < |init| && Compact(init[j].lines) != []
    ensures l < |done| && done[l].title == init[j].title
  {
    var k := FirstOfTitle(init, j);
    l :| 0 <= l < |q| && q[l] == k;
  }

  lemma {:induction false} FirstOfTitle(categories: seq<Category>, j: nat) returns (k: nat)
    requires j < |categories| && Compact(categories[j].lines) != []
    ensures k <= j && OpensTitle(categories, k) && categories[k].title == categories[j].title
  {
    if OpensTitle(categories, j) {
      k := j;
    } else {
      var i :| 0 <= i < j && categories[i].title == categories[j].title && Compact(categories[i].lines) != [];
      k := FirstOfTitle(categories, i);
    }
  }

  lemma MergingIs(categories: seq<Category>)
    ensures MergedInto(categories, MergeAll(categories))
  {
    var merged := MergeAll(categories);
    var q := MergeOrder(categories);
    MergeDistinct(categories);
    forall k | 0 <= k < |q|
      ensures merged[k] == Category(categories[q[k]].title, Joined(Pieces(categories, categories[q[k]].title)))
    {
      MergesAll(categories, merged[k].title);
      IndexOfIs(merged, merged[k].title, k);
    }
    assert MergedAt(categories, merged, q);
  }

  /** What becomes of one release: its text stays, its categories are merged, and those of an unreleased one are put in
      order. */
  ghost predicate Normal(before: Release, after: Release) {
    && after.heading == before.heading && after.leading == before.leading
    && exists merged :: MergedInto(before.categories, merged)
         && if TitleOf(before.heading) == "Unreleased" then StandByRank(merged, after.categories)
            else after.categories == merged
  }

  lemma NormalizedIsNormal(r: Release)
    ensures Normal(r, NormalizeRelease(r))
  {
    MergingIs(r.categories);
    SortedCategoriesStand(MergeAll(r.categories));
  }

  // ---- the whole changelog ----

  ghost predicate StandsAt(versions: Versions, before: seq<Release>, after: seq<Release>, p: seq<nat>) {
    && |p| == |after| == |before|
    && (forall i :: 0 <= i < |p| ==> p[i] < |before| && Normal(before[p[i]], after[i]))
    && (forall i, j :: 0 <= i < j < |p| ==> p[i] != p[j])
    && forall i, j :: 0 <= i < j < |after| ==> Precedes(versions, after[i], after[j], p[i], p[j])
  }

  /** Every release is there once, normalised, and in its place. */
  ghost predicate Stands(versions: Versions, before: seq<Release>, after: seq<Release>) {
    exists p :: StandsAt(versions, before, after, p)
  }

  lemma FinishedStands(versions: Versions, prefix: seq<string>, sections: seq<Section>)
    ensures Stands(versions, Map(ReleaseOf, sections), Finish(versions, prefix, sections).releases)
  {
    var before := Map(ReleaseOf, sections);
    var mid := Map(NormalizeRelease, before);
    var p := SortedReleasesStand(versions, mid);
    forall i | 0 <= i < |before| ensures Normal(before[i], mid[i]) { NormalizedIsNormal(before[i]); }
    assert StandsAt(versions, before, SortReleases(versions, mid), p);
  }
}
