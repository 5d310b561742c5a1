/** The fixer reaches a fixed point: after two passes always, after one if no category title repeats. */
module ChangelogConverge {
  import opened ChangelogText
  import opened Cutting
  import opened ChangelogDocument
  import opened ChangelogItems
  import opened ChangelogFix
  import opened Sorting

  // ---- versions ----

  function Head(v: seq<int>): int { if v == [] then 0 else v[0] }

  function Tail(v: seq<int>): seq<int> { if v == [] then [] else v[1..] }

  lemma {:induction false} CompareFlips(a: seq<int>, b: seq<int>)
    ensures CompareDesc(a, b) == -CompareDesc(b, a)
    decreases |a| + |b|
  {
    if (a != [] || b != []) && Head(a) == Head(b) { CompareFlips(Tail(a), Tail(b)); }
  }

  lemma {:induction false} CompareTransitive(a: seq<int>, b: seq<int>, c: seq<int>)
    requires CompareDesc(a, b) <= 0 && CompareDesc(b, c) <= 0
    ensures CompareDesc(a, c) <= 0
    decreases |a| + |b| + |c|
  {
    if a != [] || b != [] || c != [] {
      CompareStep(a, b);
      CompareStep(b, c);
      CompareStep(a, c);
      if Head(a) == Head(b) == Head(c) { CompareTransitive(Tail(a), Tail(b), Tail(c)); }
    }
  }

  lemma CompareStep(a: seq<int>, b: seq<int>)
    ensures CompareDesc(a, b) == if Head(a) != Head(b) then Head(b) - Head(a) else CompareDesc(Tail(a), Tail(b))
  {
  }

  lemma VersionsOrder(versions: Versions)
    ensures Ordering(NewerFirst(versions))
  {
    var lt := NewerFirst(versions);
    forall a, b | lt(a, b) ensures !lt(b, a) {
      CompareFlips(versions(TitleOf(a.heading)), versions(TitleOf(b.heading)));
    }
    forall a, b, c | !lt(b, a) && !lt(c, b) ensures !lt(c, a) {
      var x, y, z := versions(TitleOf(a.heading)), versions(TitleOf(b.heading)), versions(TitleOf(c.heading));
      CompareFlips(x, y);
      CompareFlips(y, z);
      CompareTransitive(x, y, z);
      CompareFlips(x, z);
    }
  }

  // ---- sorting releases ----

  lemma {:induction false} PickMembers(releases: seq<Release>, u: bool)
    ensures forall r :: r in Pick(releases, u) <==> r in releases && Unreleased(r) == u
  {
    if releases != [] {
      PickMembers(releases[1..], u);
      assert forall r :: r in releases <==> r == releases[0] || r in releases[1..];
    }
  }

  lemma {:induction false} PickJoin(a: seq<Release>, b: seq<Release>, u: bool)
    ensures Pick(a + b, u) == Pick(a, u) + Pick(b, u)
  {
    if a == [] {
      assert a + b == b;
    } else {
      assert (a + b)[1..] == a[1..] + b;
      PickJoin(a[1..], b, u);
      Assoc(if Unreleased(a[0]) == u then [a[0]] else [], Pick(a[1..], u), Pick(b, u));
    }
  }

  lemma {:induction false} PickSame(releases: seq<Release>, u: bool, v: bool)
    requires forall r :: r in releases ==> Unreleased(r) == u
    ensures Pick(releases, v) == if u == v then releases else []
  {
    if releases != [] {
      assert releases[0] in releases;
      PickSame(releases[1..], u, v);
    }
  }

  lemma SortMembers(versions: Versions, releases: seq<Release>)
    ensures forall r :: r in SortReleases(versions, releases) <==> r in releases
  {
    PickMembers(releases, true);
    PickMembers(releases, false);
    SortPermutes(NewerFirst(versions), Pick(releases, false));
  }

  /** Sorting releases a second time changes nothing. */
  lemma SortOnce(versions: Versions, releases: seq<Release>)
    ensures SortReleases(versions, SortReleases(versions, releases)) == SortReleases(versions, releases)
  {
    var a, b := Pick(releases, true), Sort(NewerFirst(versions), Pick(releases, false));
    PickMembers(releases, true);
    PickMembers(releases, false);
    SortPermutes(NewerFirst(versions), Pick(releases, false));
    PickJoin(a, b, true);
    PickJoin(a, b, false);
    PickSame(a, true, true);
    PickSame(a, true, false);
    PickSame(b, false, true);
    PickSame(b, false, false);
    assert a + [] == a && [] + b == b;
    VersionsOrder(versions);
    SortSorts(NewerFirst(versions), Pick(releases, false));
    SortOfSorted(NewerFirst(versions), b);
  }

  // ---- the one release that drops ----

  /** The first Unreleased release, if any, as a list. */
  function Target(releases: seq<Release>): seq<Release> {
    var i := FirstUnreleased(releases);
    if i == |releases| then [] else [releases[i]]
  }

  lemma {:induction false} TargetIsFirstPicked(releases: seq<Release>)
    ensures Target(releases) == if Pick(releases, true) == [] then [] else [Pick(releases, true)[0]]
  {
    if releases != [] {
      TargetIsFirstPicked(releases[1..]);
      if !Unreleased(releases[0]) {
        assert FirstUnreleased(releases) == 1 + FirstUnreleased(releases[1..]);
      }
    }
  }

  lemma TargetSorted(versions: Versions, releases: seq<Release>)
    ensures Target(SortReleases(versions, releases)) == Target(releases)
  {
    var a, b := Pick(releases, true), Sort(NewerFirst(versions), Pick(releases, false));
    PickMembers(releases, true);
    PickMembers(releases, false);
    SortPermutes(NewerFirst(versions), Pick(releases, false));
    PickJoin(a, b, true);
    PickSame(a, true, true);
    PickSame(b, false, true);
    assert a + [] == a;
    TargetIsFirstPicked(releases);
    TargetIsFirstPicked(SortReleases(versions, releases));
  }

  lemma ReleasedOfMembers(a: seq<Release>, b: seq<Release>)
    requires forall r :: r in a <==> r in b
    ensures ReleasedKeys(a) == ReleasedKeys(b)
  {
    forall k ensures k in ReleasedKeys(a) <==> k in ReleasedKeys(b) {
      ReleasedMembers(a, k);
      ReleasedMembers(b, k);
    }
  }

  /** No item of the first Unreleased release has a released key. */
  predicate Clean(historical: set<Key>, releases: seq<Release>) {
    var i := FirstUnreleased(releases);
    i < |releases| ==> KeysIn(releases[i].categories) !! (ReleasedKeys(releases) + historical)
  }

  lemma CleanSorted(versions: Versions, historical: set<Key>, releases: seq<Release>)
    requires Clean(historical, releases)
    ensures Clean(historical, SortReleases(versions, releases))
  {
    var sorted := SortReleases(versions, releases);
    TargetSorted(versions, releases);
    SortMembers(versions, releases);
    ReleasedOfMembers(sorted, releases);
    var i := FirstUnreleased(sorted);
    if i < |sorted| {
      assert Target(sorted) == [sorted[i]];
      assert Target(releases) == [releases[FirstUnreleased(releases)]];
    }
  }

  // ---- dropping ----

  lemma KeptFacts(items: seq<Block<string>>, released: set<Key>)
    requires GoodBlocks(IsListItem, items)
    ensures GoodBlocks(IsListItem, Kept(items, released))
    ensures forall b :: b in Kept(items, released) <==> b in items && KeyOf(b) !in released
    ensures (forall b :: b in items ==> KeyOf(b) !in released) ==> Kept(items, released) == items
  {
    KeptMembers(items, released);
    if forall b :: b in items ==> KeyOf(b) !in released { KeptAll(items, released); }
    var kept := Kept(items, released);
    forall i | 0 <= i < |kept| ensures GoodBlock(IsListItem, kept[i]) {
      assert kept[i] in kept;
      var j :| 0 <= j < |items| && items[j] == kept[i];
      assert GoodBlock(IsListItem, items[j]);
    }
  }

  lemma {:induction false} KeptMembers(items: seq<Block<string>>, released: set<Key>)
    ensures forall b :: b in Kept(items, released) <==> b in items && KeyOf(b) !in released
  {
    if items != [] {
      KeptMembers(items[1..], released);
      assert forall b :: b in items <==> b == items[0] || b in items[1..];
    }
  }

  lemma {:induction false} KeptAll(items: seq<Block<string>>, released: set<Key>)
    requires forall b :: b in items ==> KeyOf(b) !in released
    ensures Kept(items, released) == items
  {
    if items != [] {
      assert items[0] in items;
      KeptAll(items[1..], released);
    }
  }

  lemma KeyMembers(items: seq<Block<string>>, k: Key)
    ensures k in Map(KeyOf, items) <==> exists b :: b in items && KeyOf(b) == k
  {
    var keys := Map(KeyOf, items);
    if k in keys {
      var i :| 0 <= i < |keys| && keys[i] == k;
      assert items[i] in items;
    }
    if b :| b in items && KeyOf(b) == k {
      var i :| 0 <= i < |items| && items[i] == b;
      assert keys[i] == k;
    }
  }

  /** Exactly the items with a released key go. */
  lemma DropKeys(lines: seq<string>, released: set<Key>)
    ensures forall k :: k in Keys(DropLines(lines, released)) <==> k in Keys(lines) && k !in released
  {
    var c := Cut(IsListItem, lines);
    CutWhole(IsListItem, lines);
    KeptFacts(c.blocks, released);
    var kept := Kept(c.blocks, released);
    CutUnique(IsListItem, c.lead, kept);
    KeysTrimmed(c.lead + Uncut(kept));
    forall k ensures k in Map(KeyOf, kept) <==> k in Keys(lines) && k !in released {
      KeyMembers(kept, k);
      KeyMembers(c.blocks, k);
    }
  }

  lemma DropTrims(lines: seq<string>, released: set<Key>)
    ensures Trimmed(DropLines(lines, released))
  {
    TrimMembers(Cut(IsListItem, lines).lead + Uncut(Kept(Cut(IsListItem, lines).blocks, released)));
  }

  lemma DropNothing(lines: seq<string>, released: set<Key>)
    requires Trimmed(lines) && forall k :: k in Keys(lines) ==> k !in released
    ensures DropLines(lines, released) == lines
  {
    var c := Cut(IsListItem, lines);
    CutWhole(IsListItem, lines);
    forall b | b in c.blocks ensures KeyOf(b) !in released {
      var j :| 0 <= j < |c.blocks| && c.blocks[j] == b;
      assert Keys(lines)[j] in Keys(lines);
    }
    KeptFacts(c.blocks, released);
    TrimUnique([], lines, []);
    assert [] + lines + [] == lines;
  }

  lemma DropKeySet(lines: seq<string>, released: set<Key>)
    ensures KeySet(DropLines(lines, released)) == KeySet(lines) - released
  {
    DropKeys(lines, released);
  }

  lemma KeysInCons(c: Category, rest: seq<Category>)
    ensures KeysIn([c] + rest) == KeySet(c.lines) + KeysIn(rest)
  {
    assert ([c] + rest)[1..] == rest;
  }

  lemma NoKeys()
    ensures KeySet([]) == {}
  {
    assert Keys([]) == [];
  }

  lemma {:induction false} DropCategoriesKeys(categories: seq<Category>, released: set<Key>)
    ensures KeysIn(DropCategories(categories, released)) == KeysIn(categories) - released
  {
    if categories != [] {
      var c, rest := categories[0], categories[1..];
      DropCategoriesKeys(rest, released);
      DropKeySet(c.lines, released);
      KeysInFilled(c.title, DropLines(c.lines, released), DropCategories(rest, released));
      SplitDifference(KeySet(c.lines), KeysIn(rest), released);
    }
  }

  lemma KeysInFilled(title: string, lines: seq<string>, rest: seq<Category>)
    ensures KeysIn((if lines == [] then [] else [Category(title, lines)]) + rest) == KeySet(lines) + KeysIn(rest)
  {
    if lines == [] {
      NoKeys();
      assert [] + rest == rest;
    } else {
      KeysInCons(Category(title, lines), rest);
    }
  }

  lemma SplitDifference<T>(a: set<T>, b: set<T>, c: set<T>)
    ensures (a + b) - c == (a - c) + (b - c)
  {
  }

  lemma {:induction false} DropCategoriesFilled(categories: seq<Category>, released: set<Key>)
    ensures Filled(DropCategories(categories, released))
  {
    if categories != [] {
      DropCategoriesFilled(categories[1..], released);
      DropTrims(categories[0].lines, released);
    }
  }

  lemma {:induction false} DropCategoriesTitles(categories: seq<Category>, released: set<Key>)
    requires Distinct(categories)
    ensures Distinct(DropCategories(categories, released))
    ensures forall c :: c in DropCategories(categories, released) ==>
              exists i :: 0 <= i < |categories| && categories[i].title == c.title
  {
    if categories != [] {
      var rest := DropCategories(categories[1..], released);
      assert Distinct(categories[1..]);
      DropCategoriesTitles(categories[1..], released);
      forall c | c in rest ensures exists i :: 1 <= i < |categories| && categories[i].title == c.title {
        var i :| 0 <= i < |categories[1..]| && categories[1..][i].title == c.title;
        assert categories[i + 1].title == c.title;
      }
      forall j | 0 <= j < |rest| ensures rest[j].title != categories[0].title {
        assert rest[j] in rest;
      }
    }
  }

  lemma {:induction false} DropCategoriesNothing(categories: seq<Category>, released: set<Key>)
    requires Filled(categories) && KeysIn(categories) !! released
    ensures DropCategories(categories, released) == categories
  {
    if categories != [] {
      forall k | k in Keys(categories[0].lines) ensures k !in released {
        assert k in KeysIn(categories);
      }
      DropNothing(categories[0].lines, released);
      assert Filled(categories[1..]);
      DropCategoriesNothing(categories[1..], released);
      assert categories == [categories[0]] + categories[1..];
    }
  }

  // ---- passes ----

  predicate Tidy(r: Release) { Distinct(r.categories) && Filled(r.categories) }

  /** No category title repeats within a release. */
  predicate AllTidy(releases: seq<Release>) {
    forall r :: r in releases ==> Tidy(r)
  }

  predicate AllFilled(releases: seq<Release>) {
    forall r :: r in releases ==> Filled(r.categories)
  }

  lemma ReleasedPointwise(a: seq<Release>, b: seq<Release>)
    requires |a| == |b|
    requires forall i :: 0 <= i < |a| ==> Unreleased(a[i]) == Unreleased(b[i])
    requires forall i :: 0 <= i < |a| && !Unreleased(a[i]) ==> KeysIn(a[i].categories) == KeysIn(b[i].categories)
    ensures ReleasedKeys(a) == ReleasedKeys(b) && FirstUnreleased(a) == FirstUnreleased(b)
  {
    if a != [] {
      ReleasedPointwise(a[1..], b[1..]);
    }
  }

  lemma DropCleans(historical: set<Key>, releases: seq<Release>)
    ensures Clean(historical, DropReleased(releases, historical))
    ensures AllTidy(releases) ==> AllTidy(DropReleased(releases, historical))
    ensures AllFilled(releases) ==> AllFilled(DropReleased(releases, historical))
  {
    var after, i := DropReleased(releases, historical), FirstUnreleased(releases);
    if i < |releases| {
      ReleasedPointwise(releases, after);
      var released := ReleasedKeys(releases) + historical;
      DropCategoriesKeys(releases[i].categories, released);
      DropCategoriesFilled(releases[i].categories, released);
      assert releases[i] in releases;
      if Distinct(releases[i].categories) { DropCategoriesTitles(releases[i].categories, released); }
      forall r | r in after ensures r == after[i] || r in releases {
        var j :| 0 <= j < |after| && after[j] == r;
        if j != i { assert after[j] == releases[j]; }
      }
    }
  }

  lemma DropsNothing(historical: set<Key>, releases: seq<Release>)
    requires AllFilled(releases) && Clean(historical, releases)
    ensures DropReleased(releases, historical) == releases
  {
    var i := FirstUnreleased(releases);
    if i < |releases| {
      assert releases[i] in releases;
      DropCategoriesNothing(releases[i].categories, ReleasedKeys(releases) + historical);
    }
  }

  /** Nothing is left for another pass to do. */
  ghost predicate Finished(versions: Versions, historical: set<Key>, log: Changelog) {
    && (forall r :: r in log.releases ==> Settled(r)) && Clean(historical, log.releases)
    && SortReleases(versions, log.releases) == log.releases
  }

  lemma FinishedIsFixed(versions: Versions, historical: set<Key>, log: Changelog)
    requires Finished(versions, historical, log)
    ensures Fix(versions, historical, log) == log
  {
    forall r | r in log.releases ensures Filled(r.categories) { SettledIsFilled(r); }
    DropsNothing(historical, log.releases);
    forall i | 0 <= i < |log.releases| ensures NormalizeRelease(log.releases[i]) == log.releases[i] {
      assert log.releases[i] in log.releases;
      SettledIsFixed(log.releases[i]);
    }
    assert Map(NormalizeRelease, log.releases) == log.releases;
  }

  lemma NormalizedStaysClean(historical: set<Key>, releases: seq<Release>)
    requires AllTidy(releases) && Clean(historical, releases)
    ensures Clean(historical, Map(NormalizeRelease, releases))
    ensures forall r :: r in Map(NormalizeRelease, releases) ==> Settled(r)
  {
    var after := Map(NormalizeRelease, releases);
    forall i | 0 <= i < |releases|
      ensures Settled(after[i]) && KeysIn(after[i].categories) == KeysIn(releases[i].categories)
    {
      assert releases[i] in releases;
      DistinctSettles(releases[i]);
    }
    ReleasedPointwise(releases, after);
  }

  /** One pass finishes a changelog in which no release repeats a category title. */
  lemma TidyFinishes(versions: Versions, historical: set<Key>, log: Changelog)
    requires AllTidy(log.releases)
    ensures Finished(versions, historical, Fix(versions, historical, log))
  {
    var dropped := DropReleased(log.releases, historical);
    DropCleans(historical, log.releases);
    NormalizedStaysClean(historical, dropped);
    var normalized := Map(NormalizeRelease, dropped);
    CleanSorted(versions, historical, normalized);
    SortOnce(versions, normalized);
    SortMembers(versions, normalized);
  }

  lemma NormalizeTidies(r: Release)
    ensures Tidy(NormalizeRelease(r))
  {
    MergeDistinct(r.categories);
    var merged := MergeAll(r.categories);
    SortPermutes(Earlier, merged);
    DistinctPermuted(merged, Sort(Earlier, merged));
    var result := NormalizeRelease(r).categories;
    forall i | 0 <= i < |result| ensures result[i].lines != [] && Trimmed(result[i].lines) {
      assert result[i] in result;
      assert result[i] in merged;
    }
  }

  lemma FixTidies(versions: Versions, historical: set<Key>, log: Changelog)
    ensures AllTidy(Fix(versions, historical, log).releases)
  {
    var dropped := DropReleased(log.releases, historical);
    var normalized := Map(NormalizeRelease, dropped);
    SortMembers(versions, normalized);
    forall r | r in normalized ensures Tidy(r) {
      var i :| 0 <= i < |normalized| && normalized[i] == r;
      NormalizeTidies(dropped[i]);
    }
  }
}
