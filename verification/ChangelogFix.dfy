/** What the fixer makes of a changelog when nothing is to be promoted, up to blank padding at the ends
    of its sections. */
module ChangelogFix {
  import opened ChangelogText
  import opened Cutting
  import opened ChangelogDocument
  import opened ChangelogItems
  import opened Sorting

  // ---- merging categories of one title ----

  predicate Distinct(categories: seq<Category>) {
    forall i, j :: 0 <= i < j < |categories| ==> categories[i].title != categories[j].title
  }

  function IndexOf(categories: seq<Category>, title: string): (i: nat)
    ensures i <= |categories|
    ensures i < |categories| ==> categories[i].title == title
    ensures forall j :: 0 <= j < i ==> categories[j].title != title
  {
    if categories == [] || categories[0].title == title then 0 else 1 + IndexOf(categories[1..], title)
  }

  /** The next category: skipped if empty, appended to its namesake if there is one. */
  function AddCategory(done: seq<Category>, title: string, lines: seq<string>): seq<Category> {
    var compact, i := Compact(lines), IndexOf(done, title);
    if compact == [] then done
    else if i < |done| then done[i := Category(title, Append(done[i].lines, compact))]
    else done + [Category(title, compact)]
  }

  function MergeAll(categories: seq<Category>): seq<Category> {
    if categories == [] then []
    else
      var last := categories[|categories| - 1];
      AddCategory(MergeAll(categories[..|categories| - 1]), last.title, last.lines)
  }

  const ORDERED_SECTION_TITLES := ["Breaking Changes", "Added", "Changed", "Fixed", "Removed"]

  function TitleOrder(title: string): nat {
    OrderFrom(title, 0)
  }

  function OrderFrom(title: string, i: nat): nat
    requires i <= |ORDERED_SECTION_TITLES|
    decreases |ORDERED_SECTION_TITLES| - i
  {
    if i < |ORDERED_SECTION_TITLES| && ORDERED_SECTION_TITLES[i] != title then OrderFrom(title, i + 1) else i
  }

  predicate Earlier(a: Category, b: Category) { TitleOrder(a.title) < TitleOrder(b.title) }

  function TitleOf(heading: string): string {
    if IsReleaseHeading(heading) then ReleaseTitle(heading) else ""
  }

  predicate Unreleased(r: Release) { TitleOf(r.heading) == "Unreleased" }

  function NormalizeRelease(r: Release): Release {
    var merged := MergeAll(r.categories);
    Release(r.heading, r.leading, if Unreleased(r) then Sort(Earlier, merged) else merged)
  }

  // ---- releases in order ----

  /** The numbers of a dotted version title. */
  type Versions = string -> seq<int>

  /** Positive when `left` is the older one: the first differing part decides, missing parts count as zero. */
  function CompareDesc(left: seq<int>, right: seq<int>): int
    decreases |left| + |right|
  {
    if left == [] && right == [] then 0
    else
      var difference := (if right == [] then 0 else right[0]) - (if left == [] then 0 else left[0]);
      if difference != 0 then difference
      else CompareDesc(if left == [] then [] else left[1..], if right == [] then [] else right[1..])
  }

  function NewerFirst(versions: Versions): (Release, Release) -> bool {
    (a: Release, b: Release) => CompareDesc(versions(TitleOf(a.heading)), versions(TitleOf(b.heading))) < 0
  }

  function Pick(releases: seq<Release>, unreleased: bool): seq<Release> {
    if releases == [] then []
    else (if Unreleased(releases[0]) == unreleased then [releases[0]] else []) + Pick(releases[1..], unreleased)
  }

  function SortReleases(versions: Versions, releases: seq<Release>): seq<Release> {
    Pick(releases, true) + Sort(NewerFirst(versions), Pick(releases, false))
  }

  // ---- dropping what is already released ----

  function KeySet(lines: seq<string>): set<Key> { set k | k in Keys(lines) }

  function KeysIn(categories: seq<Category>): set<Key> {
    if categories == [] then {} else KeySet(categories[0].lines) + KeysIn(categories[1..])
  }

  function ReleasedKeys(releases: seq<Release>): set<Key> {
    if releases == [] then {}
    else (if Unreleased(releases[0]) then {} else KeysIn(releases[0].categories)) + ReleasedKeys(releases[1..])
  }

  function Kept(items: seq<Block<string>>, released: set<Key>): seq<Block<string>> {
    if items == [] then []
    else (if KeyOf(items[0]) in released then [] else [items[0]]) + Kept(items[1..], released)
  }

  function DropLines(lines: seq<string>, released: set<Key>): seq<string> {
    var c := Cut(IsListItem, lines);
    TrimBlank(c.lead + Uncut(Kept(c.blocks, released)))
  }

  function DropCategories(categories: seq<Category>, released: set<Key>): seq<Category> {
    if categories == [] then []
    else
      var lines := DropLines(categories[0].lines, released);
      (if lines == [] then [] else [Category(categories[0].title, lines)]) + DropCategories(categories[1..], released)
  }

  function FirstUnreleased(releases: seq<Release>): (i: nat)
    ensures i <= |releases|
    ensures i < |releases| ==> Unreleased(releases[i])
    ensures forall j :: 0 <= j < i ==> !Unreleased(releases[j])
  {
    if releases == [] || Unreleased(releases[0]) then 0 else 1 + FirstUnreleased(releases[1..])
  }

  function DropReleased(releases: seq<Release>, historical: set<Key>): seq<Release> {
    var i, released := FirstUnreleased(releases), ReleasedKeys(releases) + historical;
    if i == |releases| then releases
    else releases[i := releases[i].(categories := DropCategories(releases[i].categories, released))]
  }

  /** One pass of the fixer. */
  function Fix(versions: Versions, historical: set<Key>, log: Changelog): Changelog {
    Changelog(log.prefix, SortReleases(versions, Map(NormalizeRelease, DropReleased(log.releases, historical))))
  }

  function FixText(versions: Versions, historical: set<Key>, content: string): string {
    Render(Fix(versions, historical, View(Parse(content))))
  }

  // ---- merging: titles and settled categories ----

  lemma {:induction false} MergeDistinct(categories: seq<Category>)
    ensures Distinct(MergeAll(categories))
    ensures forall c :: c in MergeAll(categories) ==> c.lines != [] && Trimmed(c.lines)
  {
    if categories != [] {
      var init, last := categories[..|categories| - 1], categories[|categories| - 1];
      MergeDistinct(init);
      AddDistinct(MergeAll(init), last.title, last.lines);
    }
  }

  lemma AddDistinct(done: seq<Category>, title: string, lines: seq<string>)
    requires Distinct(done) && forall c :: c in done ==> c.lines != [] && Trimmed(c.lines)
    ensures Distinct(AddCategory(done, title, lines))
    ensures forall c :: c in AddCategory(done, title, lines) ==> c.lines != [] && Trimmed(c.lines)
  {
    CompactFacts(lines);
    var compact, i := Compact(lines), IndexOf(done, title);
    if compact != [] && i < |done| {
      assert done[i] in done;
      AppendFacts(done[i].lines, compact);
    }
  }

  lemma AppendFacts(existing: seq<string>, source: seq<string>)
    requires Trimmed(existing) && Trimmed(source) && existing != [] && source != []
    ensures Append(existing, source) == existing + Separator(existing[|existing| - 1], source[0]) + source
    ensures Append(existing, source) != [] && Trimmed(Append(existing, source))
  {
    TrimUnique([], existing, []);
    TrimUnique([], source, []);
    assert [] + existing + [] == existing && [] + source + [] == source;
  }

  function Compacted(categories: seq<Category>): (r: seq<Category>)
    ensures |r| == |categories| && forall i :: 0 <= i < |r| ==>
              r[i] == Category(categories[i].title, Compact(categories[i].lines))
  {
    seq(|categories|, i requires 0 <= i < |categories| => Category(categories[i].title, Compact(categories[i].lines)))
  }

  predicate Filled(categories: seq<Category>) {
    forall i :: 0 <= i < |categories| ==> categories[i].lines != [] && Trimmed(categories[i].lines)
  }

  lemma AddFresh(done: seq<Category>, title: string, lines: seq<string>)
    requires Compact(lines) != [] && forall i :: 0 <= i < |done| ==> done[i].title != title
    ensures AddCategory(done, title, lines) == done + [Category(title, Compact(lines))]
  {
  }

  /** Where no title repeats, merging only compacts. */
  lemma {:induction false} MergeOfDistinct(categories: seq<Category>)
    requires Distinct(categories) && Filled(categories)
    ensures MergeAll(categories) == Compacted(categories)
  {
    if categories != [] {
      var n := |categories| - 1;
      var init, last := categories[..n], categories[n];
      assert Distinct(init) && Filled(init);
      MergeOfDistinct(init);
      SettledLines(last.lines);
      AddFresh(Compacted(init), last.title, last.lines);
      CompactedSnoc(categories);
    }
  }

  lemma CompactedSnoc(categories: seq<Category>)
    requires categories != []
    ensures var n := |categories| - 1;
      Compacted(categories)
      == Compacted(categories[..n]) + [Category(categories[n].title, Compact(categories[n].lines))]
  {
  }

  predicate SettledCategory(c: Category) {
    Compact(c.lines) == c.lines && c.lines != [] && Trimmed(c.lines)
  }

  /** Nothing left to do inside a release. */
  predicate Settled(r: Release) {
    && Distinct(r.categories) && (forall c :: c in r.categories ==> SettledCategory(c))
    && (Unreleased(r) ==> Sorted(Earlier, r.categories))
  }

  lemma SettledIsFilled(r: Release)
    requires Settled(r)
    ensures Filled(r.categories) && Compacted(r.categories) == r.categories
  {
    forall i | 0 <= i < |r.categories| ensures SettledCategory(r.categories[i]) {
      assert r.categories[i] in r.categories;
    }
  }

  lemma SettledIsFixed(r: Release)
    requires Settled(r)
    ensures NormalizeRelease(r) == r
  {
    SettledIsFilled(r);
    MergeOfDistinct(r.categories);
    if Unreleased(r) { SortOfSorted(Earlier, r.categories); }
  }

  lemma SettledLines(lines: seq<string>)
    requires lines != [] && Trimmed(lines)
    ensures Compact(Compact(lines)) == Compact(lines) && Compact(lines) != [] && Trimmed(Compact(lines))
  {
    CompactFacts(lines);
    TrimUnique([], lines, []);
    assert [] + lines + [] == lines;
  }

  lemma CompactedSettles(categories: seq<Category>)
    requires Distinct(categories) && Filled(categories)
    ensures Distinct(Compacted(categories)) && forall c :: c in Compacted(categories) ==> SettledCategory(c)
  {
    forall c | c in Compacted(categories) ensures SettledCategory(c) {
      var i :| 0 <= i < |categories| && Compacted(categories)[i] == c;
      SettledLines(categories[i].lines);
    }
  }

  /** One normalisation settles a release in which no title repeats, and keeps its items. */
  lemma DistinctSettles(r: Release)
    requires Distinct(r.categories) && Filled(r.categories)
    ensures Settled(NormalizeRelease(r))
    ensures KeysIn(NormalizeRelease(r).categories) == KeysIn(r.categories)
  {
    MergeOfDistinct(r.categories);
    var merged := Compacted(r.categories);
    CompactedSettles(r.categories);
    KeysOfCompacted(r.categories);
    if Unreleased(r) {
      SortSettles(merged);
      KeysOfMembers(merged, Sort(Earlier, merged));
    }
  }

  lemma SortSettles(merged: seq<Category>)
    requires Distinct(merged) && forall c :: c in merged ==> SettledCategory(c)
    ensures var s := Sort(Earlier, merged);
      && Distinct(s) && Sorted(Earlier, s)
      && (forall c :: c in s ==> SettledCategory(c)) && forall c :: c in s <==> c in merged
  {
    assert Ordering(Earlier);
    SortSorts(Earlier, merged);
    SortPermutes(Earlier, merged);
    DistinctPermuted(merged, Sort(Earlier, merged));
  }

  /** Distinct titles stay distinct under any reordering. */
  lemma DistinctPermuted(a: seq<Category>, b: seq<Category>)
    requires Distinct(a) && multiset(a) == multiset(b)
    ensures Distinct(b)
  {
    forall i, j | 0 <= i < j < |b| ensures b[i].title != b[j].title {
      if b[i] == b[j] {
        Twice(b, i, j);
        OnceOnly(a, b[i]);
      } else {
        assert b[i] in multiset(b) && b[j] in multiset(b);
        assert b[i] in multiset(a) && b[j] in multiset(a);
        var p :| 0 <= p < |a| && a[p] == b[i];
        var q :| 0 <= q < |a| && a[q] == b[j];
        assert if p < q then a[p].title != a[q].title else a[q].title != a[p].title;
      }
    }
  }

  lemma Twice<T>(s: seq<T>, i: nat, j: nat)
    requires i < j < |s| && s[i] == s[j]
    ensures multiset(s)[s[i]] >= 2
  {
    assert s == s[..i] + [s[i]] + s[i + 1..j] + [s[j]] + s[j + 1..];
  }

  lemma {:induction false} OnceOnly(a: seq<Category>, c: Category)
    requires Distinct(a)
    ensures multiset(a)[c] <= 1
  {
    if a != [] {
      OnceOnly(a[1..], c);
      assert a == [a[0]] + a[1..];
      if a[0] == c { assert c !in a[1..]; }
    }
  }

  // ---- keys ----

  lemma {:induction false} KeysInMembers(categories: seq<Category>, k: Key)
    ensures k in KeysIn(categories) <==> exists c :: c in categories && k in Keys(c.lines)
  {
    if categories != [] {
      KeysInMembers(categories[1..], k);
      assert forall c :: c in categories <==> c == categories[0] || c in categories[1..];
    }
  }

  lemma KeysOfMembers(a: seq<Category>, b: seq<Category>)
    requires forall c :: c in a <==> c in b
    ensures KeysIn(a) == KeysIn(b)
  {
    forall k ensures k in KeysIn(a) <==> k in KeysIn(b) {
      KeysInMembers(a, k);
      KeysInMembers(b, k);
    }
  }

  lemma {:induction false} KeysOfCompacted(categories: seq<Category>)
    ensures KeysIn(Compacted(categories)) == KeysIn(categories)
  {
    if categories != [] {
      assert Compacted(categories)[1..] == Compacted(categories[1..]);
      KeysOfCompacted(categories[1..]);
      CompactFacts(categories[0].lines);
    }
  }

  lemma {:induction false} ReleasedMembers(releases: seq<Release>, k: Key)
    ensures k in ReleasedKeys(releases) <==> exists r :: r in releases && !Unreleased(r) && k in KeysIn(r.categories)
  {
    if releases != [] {
      ReleasedMembers(releases[1..], k);
      assert forall r :: r in releases <==> r == releases[0] || r in releases[1..];
    }
  }
}
