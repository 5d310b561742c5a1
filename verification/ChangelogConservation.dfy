/** The fixer as a whole, and that it loses no text and invents none as long as no historical keys
    are given. */
module ChangelogConservation {
  import opened ChangelogText
  import opened Cutting
  import opened ChangelogDocument
  import opened ChangelogItems
  import opened ChangelogFix
  import opened ChangelogConverge
  import opened ChangelogPasses
  import opened ReleasedDuplicates
  import opened PromotionRun
  import opened ReleaseDrops
  import opened ChangelogLayout
  import L = PromotionLoop
  import opened ReleaseOrder
  import opened ChangelogFixer
  import opened Sorting

  predicate InCategories(categories: seq<Category>, t: string) {
    exists c :: c in categories && t in c.lines
  }

  predicate InRelease(r: Release, t: string) {
    t in r.leading || InCategories(r.categories, t)
  }

  predicate InReleases(releases: seq<Release>, t: string) {
    exists r :: r in releases && InRelease(r, t)
  }

  // ---- merging, spacing and sorting keep the lines ----

  lemma {:induction false} NonBlankMembers(lines: seq<string>, t: string)
    requires !Blank(t)
    ensures t in NonBlank(lines) <==> t in lines
  {
    if lines != [] { NonBlankMembers(lines[1..], t); }
  }

  lemma CompactText(lines: seq<string>, t: string)
    requires !Blank(t)
    ensures t in Compact(lines) <==> t in lines
  {
    CompactFacts(lines);
    NonBlankMembers(Compact(lines), t);
    NonBlankMembers(lines, t);
  }

  lemma InCategoriesSnoc(categories: seq<Category>, c: Category, t: string)
    ensures InCategories(categories + [c], t) <==> InCategories(categories, t) || t in c.lines
  {
    assert forall d :: d in categories + [c] <==> d in categories || d == c;
  }

  lemma InCategoriesUpdate(categories: seq<Category>, i: nat, c: Category, t: string)
    requires i < |categories| && (t in categories[i].lines ==> t in c.lines)
    ensures InCategories(categories[i := c], t) <==> InCategories(categories, t) || t in c.lines
  {
    var after := categories[i := c];
    if InCategories(categories, t) {
      var d :| d in categories && t in d.lines;
      var j :| 0 <= j < |categories| && categories[j] == d;
      assert after[j] in after;
    }
    if t in c.lines { assert after[i] in after; }
    if InCategories(after, t) && t !in c.lines {
      var d :| d in after && t in d.lines;
      var j :| 0 <= j < |after| && after[j] == d;
      assert categories[j] in categories;
    }
  }

  lemma AddText(done: seq<Category>, title: string, lines: seq<string>, t: string)
    requires !Blank(t)
    ensures InCategories(AddCategory(done, title, lines), t) <==> InCategories(done, t) || t in lines
  {
    var compact, i := Compact(lines), IndexOf(done, title);
    CompactText(lines, t);
    if compact == [] {
    } else if i < |done| {
      P.AppendTexts(done[i].lines, compact, t);
      InCategoriesUpdate(done, i, Category(title, Append(done[i].lines, compact)), t);
      if t in done[i].lines { assert done[i] in done; }
    } else {
      InCategoriesSnoc(done, Category(title, compact), t);
    }
  }

  lemma {:induction false} MergeText(categories: seq<Category>, t: string)
    requires !Blank(t)
    ensures InCategories(MergeAll(categories), t) <==> InCategories(categories, t)
  {
    if categories != [] {
      var init, last := categories[..|categories| - 1], categories[|categories| - 1];
      MergeText(init, t);
      AddText(MergeAll(init), last.title, last.lines, t);
      InCategoriesSnoc(init, last, t);
      assert categories == init + [last];
    }
  }

  lemma NormalizeText(r: Release, t: string)
    requires !Blank(t)
    ensures InRelease(NormalizeRelease(r), t) <==> InRelease(r, t)
  {
    MergeText(r.categories, t);
    SortPermutes(Earlier, MergeAll(r.categories));
  }

  lemma FinishText(versions: Versions, prefix: seq<string>, sections: seq<Section>, t: string)
    requires !Blank(t)
    ensures InReleases(Finish(versions, prefix, sections).releases, t) <==> InReleases(Map(ReleaseOf, sections), t)
  {
    var releases := Map(ReleaseOf, sections);
    var normalized := Map(NormalizeRelease, releases);
    SortMembers(versions, normalized);
    if InReleases(releases, t) {
      var r :| r in releases && InRelease(r, t);
      var i :| 0 <= i < |releases| && releases[i] == r;
      NormalizeText(r, t);
      assert normalized[i] in normalized;
    }
    if InReleases(normalized, t) {
      var r :| r in normalized && InRelease(r, t);
      var i :| 0 <= i < |normalized| && normalized[i] == r;
      NormalizeText(releases[i], t);
      assert releases[i] in releases;
    }
  }

  // ---- a dropped item is still in a released section ----

  lemma {:induction false} KeptText(items: seq<Block<string>>, released: set<Key>, t: string)
    requires !Blank(t) && t in Uncut(items)
    ensures t in Uncut(Kept(items, released)) || exists b :: b in items && KeyOf(b) in released && t in KeyOf(b)
  {
    var b, rest := items[0], Kept(items[1..], released);
    TrimMembers(Whole(b));
    assert ([b] + rest)[1..] == rest && [] + rest == rest;
    if t in Whole(b) {
      assert b in items;
    } else {
      KeptText(items[1..], released, t);
      assert forall c :: c in items[1..] ==> c in items;
    }
  }

  lemma DropText(lines: seq<string>, released: set<Key>, t: string)
    requires !Blank(t) && t in lines
    ensures t in DropLines(lines, released) || exists k :: k in Keys(lines) && k in released && t in k
  {
    var c := Cut(IsListItem, lines);
    CutWhole(IsListItem, lines);
    TrimMembers(c.lead + Uncut(Kept(c.blocks, released)));
    if t !in c.lead {
      KeptText(c.blocks, released, t);
      if t !in Uncut(Kept(c.blocks, released)) {
        var b :| b in c.blocks && KeyOf(b) in released && t in KeyOf(b);
        KeyMembers(c.blocks, KeyOf(b));
      }
    }
  }

  lemma {:induction false} DropCategoriesText(categories: seq<Category>, released: set<Key>, t: string)
    requires !Blank(t)
    ensures InCategories(DropCategories(categories, released), t) ==> InCategories(categories, t)
    ensures (InCategories(categories, t) && !InCategories(DropCategories(categories, released), t)) ==>
              exists k :: k in KeysIn(categories) && k in released && t in k
  {
    if categories != [] {
      var c, rest := categories[0], categories[1..];
      var lines, dropped := DropLines(c.lines, released), DropCategories(rest, released);
      DropCategoriesText(rest, released, t);
      DropFrom(c.lines, released);
      assert categories == [c] + rest;
      assert forall d :: d in categories <==> d == c || d in rest;
      var all := DropCategories(categories, released);
      assert forall d :: d in dropped ==> d in all;
      if t in c.lines { DropText(c.lines, released, t); }
      if t in lines { assert Category(c.title, lines) in all; }
    }
  }

  lemma ReleasedKeyText(releases: seq<Release>, k: Key, t: string)
    requires k in ReleasedKeys(releases) && t in k
    ensures exists r :: r in releases && !Unreleased(r) && InRelease(r, t)
  {
    ReleasedMembers(releases, k);
    var r :| r in releases && !Unreleased(r) && k in KeysIn(r.categories);
    KeysInMembers(r.categories, k);
    var c :| c in r.categories && k in Keys(c.lines);
    P.KeyTexts(c.lines, k, t);
  }

  /** Without historical keys, whatever is dropped from Unreleased is still in a released section. */
  lemma DropKeepsText(releases: seq<Release>, t: string)
    requires !Blank(t)
    ensures InReleases(DropReleased(releases, {}), t) <==> InReleases(releases, t)
  {
    var i, after := FirstUnreleased(releases), DropReleased(releases, {});
    if i < |releases| {
      var u, released := releases[i], ReleasedKeys(releases) + {};
      DropCategoriesText(u.categories, released, t);
      assert u in releases && after[i] in after;
      if InReleases(after, t) {
        var r :| r in after && InRelease(r, t);
        var j :| 0 <= j < |after| && after[j] == r;
        assert releases[j] in releases;
      }
      if InReleases(releases, t) {
        var r :| r in releases && InRelease(r, t);
        var j :| 0 <= j < |releases| && releases[j] == r;
        if j == i && !InRelease(after[i], t) {
          var k :| k in KeysIn(u.categories) && k in released && t in k;
          ReleasedKeyText(releases, k, t);
          var s :| s in releases && !Unreleased(s) && InRelease(s, t);
          var m :| 0 <= m < |releases| && releases[m] == s;
          assert after[m] in after;
        } else {
          assert after[j] in after;
        }
      }
    }
  }

  // ---- sections and releases ----

  lemma {:induction false} CategoriesText(subs: seq<Subsection>, t: string)
    requires !Blank(t)
    ensures InCategories(Categories(subs), t) <==> exists j :: 0 <= j < |subs| && t in Texts(subs[j].lines)
  {
    if subs != [] {
      var lines, rest := TrimBlank(Texts(subs[0].lines)), Categories(subs[1..]);
      CategoriesText(subs[1..], t);
      TrimMembers(Texts(subs[0].lines));
      var all := Categories(subs);
      assert forall d :: d in rest ==> d in all;
      if t in lines { assert Category(subs[0].title, lines) in all; }
      if j :| 0 <= j < |subs[1..]| && t in Texts(subs[1..][j].lines) { assert t in Texts(subs[j + 1].lines); }
      if j :| 0 <= j < |subs| && t in Texts(subs[j].lines) {
        if j > 0 { assert t in Texts(subs[1..][j - 1].lines); }
      }
    }
  }

  lemma SectionTextIs(s: Section, t: string)
    requires !Blank(t)
    ensures SectionText(s, t) <==> InRelease(ReleaseOf(s), t)
  {
    CategoriesText(s.subsections, t);
    TrimMembers(Texts(s.leading));
  }

  lemma BodyIs(sections: seq<Section>, t: string)
    requires !Blank(t)
    ensures InBody(sections, t) <==> InReleases(Map(ReleaseOf, sections), t)
  {
    var releases := Map(ReleaseOf, sections);
    if InBody(sections, t) {
      var i :| 0 <= i < |sections| && SectionText(sections[i], t);
      SectionTextIs(sections[i], t);
      assert releases[i] in releases;
    }
    if InReleases(releases, t) {
      var r :| r in releases && InRelease(r, t);
      var i :| 0 <= i < |releases| && releases[i] == r;
      SectionTextIs(sections[i], t);
    }
  }

  // ---- the fixer ----

  /** A line of text below some release heading of the file. */
  predicate InFile(content: string, t: string) {
    InReleases(View(Parse(content)).releases, t)
  }

  /** Every non-blank line below a release heading is kept, and none is added. */
  ghost predicate SameText(a: string, b: string) {
    forall t :: !Blank(t) ==> (InFile(a, t) <==> InFile(b, t))
  }

  lemma PassesKeepText(versions: Versions, content: string, dropped: seq<Section>, promoted: seq<Section>,
                       result: string)
    requires Map(ReleaseOf, dropped) == DropReleased(View(Parse(content)).releases, {})
    requires AllSound(promoted) && SameBody(dropped, promoted)
    requires result == Render(Finish(versions, View(Parse(content)).prefix, promoted))
    ensures SameText(content, result)
  {
    FinishIsGood(versions, content, promoted);
    RenderedIsParsed(Finish(versions, View(Parse(content)).prefix, promoted));
    forall t | !Blank(t) ensures InFile(content, t) <==> InFile(result, t) {
      DropKeepsText(View(Parse(content)).releases, t);
      BodyIs(dropped, t);
      BodyIs(promoted, t);
      FinishText(versions, View(Parse(content)).prefix, promoted, t);
    }
  }

  lemma {:induction false} DroppedIsSound(sections: seq<Section>, dropped: seq<Section>, historical: set<Key>)
    requires AllSound(sections) && Numbering(dropped) && |dropped| == |sections|
    requires forall i :: 0 <= i < |sections| ==> DroppedSection(sections[i], dropped[i])
    ensures AllSound(dropped)
  {
    forall i | 0 <= i < |dropped| ensures Sound(dropped[i]) {
      assert Sound(sections[i]) && DroppedSection(sections[i], dropped[i]);
      forall j | 0 <= j < |dropped[i].subsections| ensures ReadableSub(dropped[i].subsections[j]) {
        var sub, left := sections[i].subsections[j], dropped[i].subsections[j];
        assert ReadableSub(sub);
        forall t | t in Texts(left.lines) ensures BodyLine(t) {
          P.TextsMember(left.lines, t);
          P.TextsMember(sub.lines, t);
        }
      }
    }
  }

  /**
   * The whole fixer: what was dropped from Unreleased, what was promoted into it, how the sections then stand, and
   * the text that is written.
   */
  method FixChangelogContent(versions: Versions, content: string, promotable: set<nat>, historical: set<Key>)
    returns (result: string, ghost dropped: seq<Section>, ghost promoted: seq<Section>, ghost releases: seq<Release>)
    ensures ReleasesLose(View(Parse(content)).releases, Map(ReleaseOf, dropped), historical)
    ensures |dropped| == |Parse(content).sections|
    ensures forall i :: 0 <= i < |dropped| ==> DroppedSection(Parse(content).sections[i], dropped[i])
    ensures L.Promotes(dropped, promoted, promotable) && OnlyPromotes(dropped, promoted, promotable)
    ensures Stands(versions, Map(ReleaseOf, promoted), releases)
    ensures result == Join(Spaced(Paragraphs(Changelog(View(Parse(content)).prefix, releases)))) + "\n"
    ensures promotable == {} ==> result == FixText(versions, historical, content)
    ensures historical == {} ==> SameText(content, result)
  {
    var doc := ParseChangelog(content);
    ParsedNumbering(content);
    ParsedIsSound(content);
    var sections := DropUnreleasedDuplicates(doc.sections, historical);
    dropped := sections;
    DropIs(View(Parse(content)).releases, historical);
    DroppedIsSound(doc.sections, sections, historical);
    sections := L.Promote(sections, promotable);
    promoted := sections;
    assert forall i :: 0 <= i < |sections| ==> Sound(sections[i]);
    var normalized := NormalizeAll(sections);
    var prefix := TrimBlankLines(Texts(doc.prefix));
    result := RenderChangelog(Changelog(prefix, SortReleases(versions, normalized)));
    releases := SortReleases(versions, normalized);
    FinishedStands(versions, prefix, sections);
    FinishIsGood(versions, content, sections);
    RenderIsParagraphs(Finish(versions, prefix, sections));
    if historical == {} { PassesKeepText(versions, content, dropped, promoted, result); }
  }
}
