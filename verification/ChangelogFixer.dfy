/** The changelog fixer: parse, drop, promote, normalise, sort, render, with the loops that normalise
    a section and write the lines. */
module ChangelogFixer {
  import opened ChangelogText
  import opened Cutting
  import opened ChangelogDocument
  import opened ChangelogItems
  import opened ChangelogFix
  import opened ChangelogConverge
  import opened ChangelogPasses
  import opened NumberedItems
  import opened ReleasedDuplicates
  import opened PromotionRun
  import opened Sorting

  // ---- normalising a section ----

  /** The category of a subsection, unless nothing is in it. */
  function OneCategory(sub: Subsection): seq<Category> {
    var lines := TrimBlank(Texts(sub.lines));
    if lines == [] then [] else [Category(sub.title, lines)]
  }

  lemma {:induction false} CategoriesSnoc(subs: seq<Subsection>, last: Subsection)
    ensures Categories(subs + [last]) == Categories(subs) + OneCategory(last)
  {
    if subs == [] {
      SnocEmpty(subs, last);
      assert Categories([last]) == OneCategory(last) + Categories([]);
    } else {
      SnocTail(subs, last);
      CategoriesSnoc(subs[1..], last);
      assert Categories(subs) == OneCategory(subs[0]) + Categories(subs[1..]);
      assert Categories(subs + [last]) == OneCategory(subs[0]) + Categories(subs[1..] + [last]);
      Assoc(OneCategory(subs[0]), Categories(subs[1..]), OneCategory(last));
    }
  }

  lemma MergeSnoc(categories: seq<Category>, last: Category)
    ensures MergeAll(categories + [last]) == AddCategory(MergeAll(categories), last.title, last.lines)
  {
    assert (categories + [last])[..|categories|] == categories;
  }

  method AddTo(done: seq<Category>, title: string, compact: seq<string>) returns (more: seq<Category>, merged: bool)
    requires compact != [] && Compact(compact) == compact
    ensures more == AddCategory(done, title, compact) && merged == (|more| == |done|)
  {
    var i := 0;
    while i < |done| && done[i].title != title
      invariant i <= |done| && forall j :: 0 <= j < i ==> done[j].title != title
    {
      i := i + 1;
    }
    assert i == IndexOf(done, title);
    if i < |done| {
      var appended := Append(done[i].lines, compact);
      more, merged := done[i := Category(title, appended)], true;
    } else {
      more, merged := done + [Category(title, compact)], false;
    }
  }

  lemma AddCompacted(done: seq<Category>, title: string, lines: seq<string>)
    ensures AddCategory(done, title, Compact(lines)) == AddCategory(done, title, lines)
  {
    CompactFacts(lines);
  }

  method MergeSubsection(done: seq<Category>, sub: Subsection)
    returns (more: seq<Category>, merged: bool, removed: bool)
    ensures var lines := TrimBlank(Texts(sub.lines));
      && removed == (lines == []) && merged == (lines != [] && |more| == |done|)
      && more == if lines == [] then done else AddCategory(done, sub.title, lines)
  {
    var lines := TrimBlankLines(Texts(sub.lines));
    var compact := CompactAdjacentListSpacing(lines);
    CompactFacts(lines);
    TrimMembers(Texts(sub.lines));
    if compact == [] {
      return done, false, true;
    }
    AddCompacted(done, sub.title, lines);
    more, merged := AddTo(done, sub.title, compact);
    removed := false;
  }

  lemma MergeStep(subs: seq<Subsection>, sub: Subsection)
    ensures var lines, before := TrimBlank(Texts(sub.lines)), Categories(subs);
      && |Categories(subs + [sub])| == |before| + (if lines == [] then 0 else 1)
      && MergeAll(Categories(subs + [sub]))
           == if lines == [] then MergeAll(before) else AddCategory(MergeAll(before), sub.title, lines)
  {
    var lines, before := TrimBlank(Texts(sub.lines)), Categories(subs);
    CategoriesSnoc(subs, sub);
    if lines == [] {
      assert before + [] == before;
    } else {
      MergeSnoc(before, Category(sub.title, lines));
    }
  }

  lemma AddedOne(done: seq<Category>, title: string, lines: seq<string>)
    requires Compact(lines) != []
    ensures |AddCategory(done, title, lines)| == |done| || |AddCategory(done, title, lines)| == |done| + 1
  {
  }

  /** Where merging stands after some subsections: the result, how many were merged, how many were empty. */
  predicate Merging(subs: seq<Subsection>, done: seq<Category>, merged: int, removed: int) {
    && done == MergeAll(Categories(subs))
    && merged == |Categories(subs)| - |done| && removed == |subs| - |Categories(subs)|
  }

  method MergeNext(ghost subs: seq<Subsection>, done: seq<Category>, merged: int, removed: int, sub: Subsection,
                   ghost after: seq<Subsection>)
    returns (more: seq<Category>, merged': int, removed': int)
    requires Merging(subs, done, merged, removed) && after == subs + [sub]
    ensures Merging(after, more, merged', removed')
  {
    var repeated, empty;
    more, repeated, empty := MergeSubsection(done, sub);
    MergeStep(subs, sub);
    ghost var lines := TrimBlank(Texts(sub.lines));
    CompactFacts(lines);
    TrimMembers(Texts(sub.lines));
    if !empty { AddedOne(done, sub.title, lines); }
    merged' := merged + if repeated then 1 else 0;
    removed' := removed + if empty then 1 else 0;
  }

  method MergeSubsections(subs: seq<Subsection>) returns (done: seq<Category>, merged: int, removed: int)
    ensures Merging(subs, done, merged, removed)
  {
    done, merged, removed := [], 0, 0;
    var i := 0;
    assert subs[..0] == [];
    while i < |subs|
      invariant 0 <= i <= |subs| && Merging(subs[..i], done, merged, removed)
    {
      ghost var after := subs[..i + 1];
      assert after == subs[..i] + [subs[i]];
      done, merged, removed := MergeNext(subs[..i], done, merged, removed, subs[i], after);
      i := i + 1;
    }
    assert subs[..|subs|] == subs;
  }

  /** The counters say how many titles were merged into an earlier one, and how many had nothing under them. */
  method NormalizeSection(section: Section) returns (r: Release, merged: int, removed: int)
    requires Titled(section)
    ensures r == NormalizeRelease(ReleaseOf(section))
    ensures merged == |Categories(section.subsections)| - |MergeAll(Categories(section.subsections))|
    ensures removed == |section.subsections| - |Categories(section.subsections)|
  {
    var done;
    done, merged, removed := MergeSubsections(section.subsections);
    var leading := TrimBlankLines(Texts(section.leading));
    r := Release(section.heading, leading, if section.title == "Unreleased" then Sort(Earlier, done) else done);
  }

  method NormalizeAll(sections: seq<Section>) returns (releases: seq<Release>)
    requires forall i :: 0 <= i < |sections| ==> Titled(sections[i])
    ensures releases == Map(NormalizeRelease, Map(ReleaseOf, sections))
  {
    releases := [];
    for i := 0 to |sections|
      invariant |releases| == i
      invariant forall k :: 0 <= k < i ==> releases[k] == NormalizeRelease(ReleaseOf(sections[k]))
    {
      var r, merged, removed := NormalizeSection(sections[i]);
      releases := releases + [r];
    }
  }

  // ---- rendering ----

  lemma {:induction false} CategoryLinesSnoc(categories: seq<Category>, last: Category)
    ensures AllCategoryLines(categories + [last]) == AllCategoryLines(categories) + CategoryLines(last)
  {
    if categories == [] {
      SnocEmpty(categories, last);
    } else {
      SnocTail(categories, last);
      CategoryLinesSnoc(categories[1..], last);
    }
  }

  lemma {:induction false} ReleaseLinesSnoc(releases: seq<Release>, last: Release)
    ensures ReleaseLines(releases + [last]) == ReleaseLines(releases) + ([last.heading] + BodyLines(last))
  {
    if releases == [] {
      SnocEmpty(releases, last);
    } else {
      SnocTail(releases, last);
      ReleaseLinesSnoc(releases[1..], last);
    }
  }

  method WriteCategories(categories: seq<Category>) returns (output: seq<string>)
    ensures output == AllCategoryLines(categories)
  {
    output := [];
    for i := 0 to |categories|
      invariant output == AllCategoryLines(categories[..i])
    {
      assert categories[..i + 1] == categories[..i] + [categories[i]];
      CategoryLinesSnoc(categories[..i], categories[i]);
      output := output + (["", "### " + categories[i].title, ""] + categories[i].lines);
    }
    assert categories[..|categories|] == categories;
  }

  method WriteReleases(releases: seq<Release>) returns (output: seq<string>)
    ensures output == ReleaseLines(releases)
  {
    output := [];
    for i := 0 to |releases|
      invariant output == ReleaseLines(releases[..i])
    {
      var r := releases[i];
      assert releases[..i + 1] == releases[..i] + [r];
      ReleaseLinesSnoc(releases[..i], r);
      var categories := WriteCategories(r.categories);
      var body := (if |r.leading| > 0 then [""] + r.leading else []) + categories + [""];
      output := output + ([r.heading] + body);
    }
    assert releases[..|releases|] == releases;
  }

  method PopTrailing(lines: seq<string>) returns (output: seq<string>)
    ensures output == PopEmpty(lines)
  {
    output := lines;
    while |output| > 0 && output[|output| - 1] == ""
      invariant PopEmpty(output) == PopEmpty(lines)
      decreases |output|
    {
      output := output[..|output| - 1];
    }
  }

  method RenderChangelog(log: Changelog) returns (content: string)
    ensures content == Render(log)
  {
    var output: seq<string> := [];
    if |log.prefix| > 0 { output := log.prefix + [""]; }
    var rest := WriteReleases(log.releases);
    output := PopTrailing(output + rest);
    content := Join(output) + "\n";
  }

  // ---- every parsed section is sound ----

  lemma WholeLines(lines: seq<NumberedLine>, isHead: NumberedLine -> bool, i: nat, l: NumberedLine)
    requires i < |Cut(isHead, lines).blocks| && l in Whole(Cut(isHead, lines).blocks[i])
    ensures l in lines
  {
    CutWhole(isHead, lines);
    UncutMembers(Cut(isHead, lines).blocks, l);
  }

  lemma BodyIsGood(body: seq<NumberedLine>)
    requires (forall l :: l in body ==> Plain(l.text) && !IsReleaseHeading(l.text)) && Headless(OpensSubsection, body)
    ensures GoodLines(Texts(body))
  {
    forall t | t in Texts(body) ensures BodyLine(t) {
      var i :| 0 <= i < |body| && Texts(body)[i] == t;
      assert body[i] in body;
    }
  }

  lemma SectionIsSound(b: Block<NumberedLine>)
    requires OpensRelease(b.head) && Plain(b.head.text) && Rising(b.body)
    requires forall l :: l in b.body ==> Plain(l.text) && !IsReleaseHeading(l.text)
    ensures Sound(ToSection(b))
  {
    var c := Cut(OpensSubsection, b.body);
    CutWhole(OpensSubsection, b.body);
    BodyIsGood(c.lead);
    forall i | 0 <= i < |c.blocks| ensures ReadableSub(ToSubsection(c.blocks[i])) && Rising(c.blocks[i].body) {
      var d := c.blocks[i];
      assert GoodBlock(OpensSubsection, d);
      forall l | l in Whole(d) ensures l in b.body { WholeLines(b.body, OpensSubsection, i, l); }
      assert d.head in Whole(d) && forall l :: l in d.body ==> l in Whole(d);
      TrimFacts(d.head.text[3..]);
      assert forall x :: x in d.head.text[3..] ==> x in d.head.text;
      BodyIsGood(d.body);
      RisingBlock(b.body, OpensSubsection, i);
    }
  }

  lemma ParsedIsSound(content: string)
    ensures AllSound(Parse(content).sections)
  {
    var lines := Numbered(ContentLines(content));
    ContentLinesArePlain(content);
    assert Rising(lines);
    var c := Cut(OpensRelease, lines);
    CutWhole(OpensRelease, lines);
    forall i | 0 <= i < |c.blocks| ensures Sound(ToSection(c.blocks[i])) {
      var b := c.blocks[i];
      assert GoodBlock(OpensRelease, b);
      forall l | l in Whole(b) ensures Plain(l.text) {
        WholeLines(lines, OpensRelease, i, l);
        var k :| 0 <= k < |lines| && lines[k] == l;
      }
      assert b.head in Whole(b);
      forall l | l in b.body ensures Plain(l.text) && !IsReleaseHeading(l.text) {
        assert l in Whole(b);
        var k :| 0 <= k < |b.body| && b.body[k] == l;
      }
      RisingBlock(lines, OpensRelease, i);
      SectionIsSound(b);
    }
  }

  lemma {:induction false} CategoriesReadable(subs: seq<Subsection>)
    requires forall j :: 0 <= j < |subs| ==> ReadableSub(subs[j])
    ensures AllReadable(Categories(subs))
  {
    if subs != [] {
      CategoriesReadable(subs[1..]);
      TrimMembers(Texts(subs[0].lines));
    }
  }

  lemma SoundIsReadable(s: Section)
    requires Sound(s)
    ensures ReadableRelease(ReleaseOf(s))
  {
    CategoriesReadable(s.subsections);
    TrimMembers(Texts(s.leading));
    var leading := TrimBlank(Texts(s.leading));
    forall i | 0 <= i < |leading| ensures BodyLine(leading[i]) { assert leading[i] in leading; }
  }

  /** What rendering is given after the two passes over the sections. */
  function Finish(versions: Versions, prefix: seq<string>, sections: seq<Section>): Changelog {
    Changelog(prefix, SortReleases(versions, Map(NormalizeRelease, Map(ReleaseOf, sections))))
  }

  lemma FinishIsGood(versions: Versions, content: string, sections: seq<Section>)
    requires AllSound(sections)
    ensures GoodLog(Finish(versions, View(Parse(content)).prefix, sections))
  {
    ParsedIsRereadable(content);
    var normalized := Map(NormalizeRelease, Map(ReleaseOf, sections));
    forall i | 0 <= i < |normalized| ensures GoodRelease(normalized[i]) {
      SoundIsReadable(sections[i]);
      NormalizeReadable(ReleaseOf(sections[i]));
    }
    SortMembers(versions, normalized);
    var sorted := SortReleases(versions, normalized);
    forall j | 0 <= j < |sorted| ensures GoodRelease(sorted[j]) { assert sorted[j] in normalized; }
  }
}
