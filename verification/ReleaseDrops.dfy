/** Which items are dropped from Unreleased, read off the releases before and after. */
module ReleaseDrops {
  import opened ChangelogText
  import opened Cutting
  import opened ChangelogDocument
  import opened ChangelogItems
  import opened ChangelogFix
  import opened Sifting

  /** The key of an item of history, or of some released section. */
  ghost predicate Known(releases: seq<Release>, historical: set<Key>, key: Key) {
    key in historical ||
    exists r, c :: r in releases && TitleOf(r.heading) != "Unreleased" && c in r.categories && key in Keys(c.lines)
  }

  /** Place `k` of the items is kept. */
  ghost predicate StaysAt(items: seq<Block<string>>, gone: set<Key>, p: seq<nat>, k: nat)
    requires k < |items|
  {
    k in p <==> KeyOf(items[k]) !in gone
  }

  ghost predicate ItemsLose(items: seq<Block<string>>, kept: seq<Block<string>>, gone: set<Key>) {
    exists p :: Sifts(items, kept, p) && forall k: nat :: k < |items| ==> StaysAt(items, gone, p, k)
  }

  /** The lines before the first item stay, and of the items those that are not gone, in their order. */
  ghost predicate LinesLose(before: seq<string>, after: seq<string>, gone: set<Key>) {
    exists kept :: ItemsLose(ItemsOf(before), kept, gone)
                   && after == TrimBlank(Cut(IsListItem, before).lead + Uncut(kept))
  }

  predicate FilledAt(categories: seq<Category>, p: seq<nat>, k: nat)
    requires k < |categories|
  {
    k in p <==> categories[k].lines != []
  }

  /** `after` is those of `left` that hold anything. */
  ghost predicate OnlyFilled(left: seq<Category>, after: seq<Category>) {
    exists p :: Sifts(left, after, p) && forall k: nat :: k < |left| ==> FilledAt(left, p, k)
  }

  ghost predicate EachLoses(before: seq<Category>, left: seq<Category>, gone: set<Key>) {
    |left| == |before| &&
    forall i :: 0 <= i < |left| ==> left[i].title == before[i].title && LinesLose(before[i].lines, left[i].lines, gone)
  }

  /** Each category loses what is gone; those that then hold nothing go too. */
  ghost predicate CategoriesLose(before: seq<Category>, after: seq<Category>, gone: set<Key>) {
    exists left :: EachLoses(before, left, gone) && OnlyFilled(left, after)
  }

  predicate IsFirstUnreleased(releases: seq<Release>, i: nat) {
    && i < |releases| && TitleOf(releases[i].heading) == "Unreleased"
    && forall j :: 0 <= j < i ==> TitleOf(releases[j].heading) != "Unreleased"
  }

  ghost predicate ReleaseLoses(before: seq<Release>, after: seq<Release>, gone: set<Key>, i: nat)
    requires i < |before| == |after|
  {
    if IsFirstUnreleased(before, i) then
      && after[i] == before[i].(categories := after[i].categories)
      && CategoriesLose(before[i].categories, after[i].categories, gone)
    else after[i] == before[i]
  }

  ghost predicate AreKnown(releases: seq<Release>, historical: set<Key>, gone: set<Key>) {
    forall key :: key in gone <==> Known(releases, historical, key)
  }

  /** The first Unreleased section loses the items that are known elsewhere, and nothing else changes. */
  ghost predicate ReleasesLose(before: seq<Release>, after: seq<Release>, historical: set<Key>) {
    |after| == |before| &&
    exists gone :: AreKnown(before, historical, gone) &&
      forall i :: 0 <= i < |before| ==> ReleaseLoses(before, after, gone, i)
  }

  // ---- dropping does that ----

  lemma {:induction false} KeptIs(items: seq<Block<string>>, gone: set<Key>)
    ensures ItemsLose(items, Kept(items, gone), gone)
  {
    if items == [] {
      assert Sifts(items, Kept(items, gone), []);
    } else {
      KeptIs(items[1..], gone);
      var rest, p := Kept(items[1..], gone), [];
      p :| Sifts(items[1..], rest, p) && forall k: nat :: k < |items[1..]| ==> StaysAt(items[1..], gone, p, k);
      var q := SiftFirst(items, rest, p, KeyOf(items[0]) !in gone);
      forall k: nat | k < |items| ensures StaysAt(items, gone, q, k) {
        if k > 0 { assert StaysAt(items[1..], gone, p, k - 1); }
      }
    }
  }

  lemma DropLinesIs(lines: seq<string>, gone: set<Key>)
    ensures LinesLose(lines, DropLines(lines, gone), gone)
  {
    KeptIs(ItemsOf(lines), gone);
  }

  lemma {:induction false} DropCategoriesIs(categories: seq<Category>, gone: set<Key>) returns (left: seq<Category>)
    ensures EachLoses(categories, left, gone) && OnlyFilled(left, DropCategories(categories, gone))
  {
    left := [];
    if categories == [] {
      assert Sifts(left, DropCategories(categories, gone), []);
    } else {
      var c := categories[0];
      var rest := DropCategoriesIs(categories[1..], gone);
      DropLinesIs(c.lines, gone);
      var lines, after := DropLines(c.lines, gone), DropCategories(categories[1..], gone);
      left := [Category(c.title, lines)] + rest;
      assert left[1..] == rest;
      EachMore(categories, rest, gone, lines, left);
      FilledMore(left, after);
    }
  }

  lemma EachMore(categories: seq<Category>, rest: seq<Category>, gone: set<Key>, lines: seq<string>,
                 left: seq<Category>)
    requires categories != [] && EachLoses(categories[1..], rest, gone) && LinesLose(categories[0].lines, lines, gone)
    requires left == [Category(categories[0].title, lines)] + rest
    ensures EachLoses(categories, left, gone)
  {
    forall i | 0 <= i < |left|
      ensures left[i].title == categories[i].title && LinesLose(categories[i].lines, left[i].lines, gone)
    {
      if i > 0 { assert left[i] == rest[i - 1] && categories[i] == categories[1..][i - 1]; }
    }
  }

  lemma FilledMore(left: seq<Category>, after: seq<Category>)
    requires left != [] && OnlyFilled(left[1..], after)
    ensures OnlyFilled(left, (if left[0].lines == [] then [] else [left[0]]) + after)
  {
    var p :| Sifts(left[1..], after, p) && forall k: nat :: k < |left[1..]| ==> FilledAt(left[1..], p, k);
    var q := SiftFirst(left, after, p, left[0].lines != []);
    forall k: nat | k < |left| ensures FilledAt(left, q, k) {
      if k > 0 { assert FilledAt(left[1..], p, k - 1); }
    }
  }

  lemma ReleasedIsKnown(releases: seq<Release>, historical: set<Key>, key: Key)
    ensures key in ReleasedKeys(releases) + historical <==> Known(releases, historical, key)
  {
    ReleasedMembers(releases, key);
    forall r | r in releases { KeysInMembers(r.categories, key); }
  }

  /** Main result on dropping. */
  lemma DropIs(releases: seq<Release>, historical: set<Key>)
    ensures ReleasesLose(releases, DropReleased(releases, historical), historical)
  {
    var gone, u := ReleasedKeys(releases) + historical, FirstUnreleased(releases);
    var after := DropReleased(releases, historical);
    forall key ensures key in gone <==> Known(releases, historical, key) {
      ReleasedIsKnown(releases, historical, key);
    }
    assert AreKnown(releases, historical, gone);
    forall i | 0 <= i < |releases| ensures ReleaseLoses(releases, after, gone, i) {
      if i == u { var left := DropCategoriesIs(releases[u].categories, gone); }
    }
  }
}
