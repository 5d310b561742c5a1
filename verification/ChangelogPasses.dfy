/** The fixer on whole files: its output is read back, and repeated passes stop changing it. */
module ChangelogPasses {
  import opened ChangelogText
  import opened Cutting
  import opened ChangelogDocument
  import opened ChangelogItems
  import opened ChangelogFix
  import opened ChangelogConverge
  import opened Sorting

  // ---- no pass writes a line that reads differently ----

  /** Every line is one of `before`, or empty. */
  predicate From(lines: seq<string>, before: seq<string>) {
    forall t :: t in lines ==> t in before || t == ""
  }

  lemma {:induction false} FlattenMembers(keys: seq<Key>, t: string)
    ensures t in Flatten(keys) <==> exists i :: 0 <= i < |keys| && t in keys[i]
  {
    if keys != [] {
      FlattenMembers(keys[1..], t);
      if i :| 0 <= i < |keys| - 1 && t in keys[1..][i] { assert t in keys[i + 1]; }
      if i :| 0 <= i < |keys| && t in keys[i] {
        if i > 0 { assert t in keys[1..][i - 1]; }
      }
    }
  }

  lemma KeyFrom(lines: seq<string>, i: nat, t: string)
    requires i < |Keys(lines)| && t in Keys(lines)[i]
    ensures t in lines
  {
    var items := ItemsOf(lines);
    CutWhole(IsListItem, lines);
    TrimMembers(Whole(items[i]));
    UncutMembers(items, t);
  }

  lemma CompactFrom(lines: seq<string>)
    ensures From(Compact(lines), lines)
  {
    var trimmed := TrimBlank(lines);
    TrimMembers(lines);
    forall t | t in Flatten(Keys(trimmed)) ensures t in lines {
      FlattenMembers(Keys(trimmed), t);
      var i :| 0 <= i < |Keys(trimmed)| && t in Keys(trimmed)[i];
      KeyFrom(trimmed, i, t);
    }
  }

  lemma AppendFrom(existing: seq<string>, source: seq<string>)
    ensures From(Append(existing, source), existing + source)
  {
    TrimMembers(existing);
    TrimMembers(source);
  }

  lemma DropFrom(lines: seq<string>, released: set<Key>)
    ensures From(DropLines(lines, released), lines)
  {
    var c := Cut(IsListItem, lines);
    var kept := Kept(c.blocks, released);
    CutWhole(IsListItem, lines);
    KeptFacts(c.blocks, released);
    TrimMembers(c.lead + Uncut(kept));
    forall t | t in Uncut(kept) ensures t in lines {
      UncutMembers(kept, t);
      var i :| 0 <= i < |kept| && t in Whole(kept[i]);
      assert kept[i] in c.blocks;
      var j :| 0 <= j < |c.blocks| && c.blocks[j] == kept[i];
      UncutMembers(c.blocks, t);
    }
  }

  predicate GoodLines(lines: seq<string>) {
    forall t :: t in lines ==> BodyLine(t)
  }

  predicate GoodTitle(title: string) { Tight(title) && Plain(title) }

  /** A category apart from being filled and trimmed. */
  predicate Readable(c: Category) { GoodTitle(c.title) && GoodLines(c.lines) }

  predicate AllReadable(categories: seq<Category>) {
    forall c :: c in categories ==> Readable(c)
  }

  lemma GoodFrom(lines: seq<string>, before: seq<string>)
    requires From(lines, before) && GoodLines(before)
    ensures GoodLines(lines)
  {
    assert BodyLine("");
  }

  lemma AddReadable(done: seq<Category>, title: string, lines: seq<string>)
    requires AllReadable(done) && GoodTitle(title) && GoodLines(lines)
    ensures AllReadable(AddCategory(done, title, lines))
  {
    var compact, i := Compact(lines), IndexOf(done, title);
    CompactFrom(lines);
    GoodFrom(compact, lines);
    if compact != [] && i < |done| {
      assert done[i] in done;
      AppendFrom(done[i].lines, compact);
      GoodFrom(Append(done[i].lines, compact), done[i].lines + compact);
    }
  }

  lemma {:induction false} MergeReadable(categories: seq<Category>)
    requires AllReadable(categories)
    ensures AllReadable(MergeAll(categories))
  {
    if categories != [] {
      var last := categories[|categories| - 1];
      assert last in categories;
      assert AllReadable(categories[..|categories| - 1]);
      MergeReadable(categories[..|categories| - 1]);
      AddReadable(MergeAll(categories[..|categories| - 1]), last.title, last.lines);
    }
  }

  lemma {:induction false} DropReadable(categories: seq<Category>, released: set<Key>)
    requires AllReadable(categories)
    ensures AllReadable(DropCategories(categories, released))
  {
    if categories != [] {
      assert categories[0] in categories;
      assert AllReadable(categories[1..]);
      DropReadable(categories[1..], released);
      DropFrom(categories[0].lines, released);
      GoodFrom(DropLines(categories[0].lines, released), categories[0].lines);
    }
  }

  predicate ReadableRelease(r: Release) {
    IsReleaseHeading(r.heading) && Plain(r.heading) && BodyText(r.leading) && AllReadable(r.categories)
  }

  lemma GoodIsReadable(r: Release)
    requires GoodRelease(r)
    ensures ReadableRelease(r) && Filled(r.categories)
  {
    forall i | 0 <= i < |r.categories| ensures GoodCategory(r.categories[i]) {}
    forall c | c in r.categories ensures Readable(c) {
      var i :| 0 <= i < |r.categories| && r.categories[i] == c;
      forall t | t in c.lines ensures BodyLine(t) {
        var j :| 0 <= j < |c.lines| && c.lines[j] == t;
      }
    }
  }

  lemma ReadableIsGood(r: Release)
    requires ReadableRelease(r) && Filled(r.categories)
    ensures GoodRelease(r)
  {
    forall i | 0 <= i < |r.categories| ensures GoodCategory(r.categories[i]) {
      var c := r.categories[i];
      assert c in r.categories;
      forall j | 0 <= j < |c.lines| ensures BodyLine(c.lines[j]) { assert c.lines[j] in c.lines; }
    }
  }

  lemma NormalizeReadable(r: Release)
    requires ReadableRelease(r)
    ensures GoodRelease(NormalizeRelease(r))
  {
    var merged := MergeAll(r.categories);
    MergeReadable(r.categories);
    SortPermutes(Earlier, merged);
    NormalizeTidies(r);
    ReadableIsGood(NormalizeRelease(r));
  }

  /** A pass turns a readable changelog into a readable one. */
  lemma FixGood(versions: Versions, historical: set<Key>, log: Changelog)
    requires GoodLog(log)
    ensures GoodLog(Fix(versions, historical, log))
  {
    var dropped := DropReleased(log.releases, historical);
    var normalized := Map(NormalizeRelease, dropped);
    var i := FirstUnreleased(log.releases);
    forall j | 0 <= j < |dropped| ensures GoodRelease(normalized[j]) {
      assert GoodRelease(log.releases[j]);
      GoodIsReadable(log.releases[j]);
      if j == i { DropReadable(log.releases[j].categories, ReleasedKeys(log.releases) + historical); }
      NormalizeReadable(dropped[j]);
    }
    SortMembers(versions, normalized);
    var sorted := SortReleases(versions, normalized);
    forall j | 0 <= j < |sorted| ensures GoodRelease(sorted[j]) {
      assert sorted[j] in normalized;
    }
  }

  // ---- whole files ----

  /** The output of a pass is read back as what the pass made. */
  lemma FixedIsReread(versions: Versions, historical: set<Key>, content: string)
    ensures View(Parse(FixText(versions, historical, content))) == Fix(versions, historical, View(Parse(content)))
  {
    ParsedIsRereadable(content);
    FixGood(versions, historical, View(Parse(content)));
    RenderedIsParsed(Fix(versions, historical, View(Parse(content))));
  }

  lemma ParsedIsFilled(content: string)
    ensures AllFilled(View(Parse(content)).releases)
  {
    ParsedIsRereadable(content);
    var releases := View(Parse(content)).releases;
    forall r | r in releases ensures Filled(r.categories) {
      var i :| 0 <= i < |releases| && releases[i] == r;
      GoodIsReadable(releases[i]);
    }
  }

  /** No category title is used twice, with text under it, in one release of the file. */
  predicate NoRepeatedTitle(content: string) {
    forall r :: r in View(Parse(content)).releases ==> Distinct(r.categories)
  }

  /** One pass is enough for a file in which no release repeats a category title. */
  lemma OnePassSuffices(versions: Versions, historical: set<Key>, content: string)
    requires NoRepeatedTitle(content)
    ensures var once := FixText(versions, historical, content);
      FixText(versions, historical, once) == once
  {
    var log := View(Parse(content));
    ParsedIsFilled(content);
    FixedIsReread(versions, historical, content);
    TidyFinishes(versions, historical, log);
    FinishedIsFixed(versions, historical, Fix(versions, historical, log));
  }

  /** Two passes are enough for every file: a third changes nothing. */
  lemma TwoPassesSuffice(versions: Versions, historical: set<Key>, content: string)
    ensures var twice := FixText(versions, historical, FixText(versions, historical, content));
      FixText(versions, historical, twice) == twice
  {
    var once := FixText(versions, historical, content);
    FixedIsReread(versions, historical, content);
    FixTidies(versions, historical, View(Parse(content)));
    OnePassSuffices(versions, historical, once);
  }
}
