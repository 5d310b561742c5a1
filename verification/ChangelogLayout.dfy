/** The layout of a rendered changelog: paragraphs, one empty line apart. */
module ChangelogLayout {
  import opened ChangelogText
  import opened ChangelogDocument

  function CategoryParagraphs(categories: seq<Category>): seq<seq<string>> {
    if categories == [] then []
    else [["### " + categories[0].title], categories[0].lines] + CategoryParagraphs(categories[1..])
  }

  /** A heading; the text below it, if there is any; and for every category its heading and its lines. */
  function ReleaseParagraphs(r: Release): seq<seq<string>> {
    [[r.heading]] + (if r.leading == [] then [] else [r.leading]) + CategoryParagraphs(r.categories)
  }

  function AllReleaseParagraphs(releases: seq<Release>): seq<seq<string>> {
    if releases == [] then [] else ReleaseParagraphs(releases[0]) + AllReleaseParagraphs(releases[1..])
  }

  function Paragraphs(log: Changelog): seq<seq<string>> {
    (if log.prefix == [] then [] else [log.prefix]) + AllReleaseParagraphs(log.releases)
  }

  /** One empty line between any two paragraphs. */
  function Spaced(ps: seq<seq<string>>): seq<string> {
    if ps == [] then [] else if |ps| == 1 then ps[0] else ps[0] + [""] + Spaced(ps[1..])
  }

  // ---- every paragraph is followed by an empty line ----

  function Followed(ps: seq<seq<string>>): seq<string> {
    if ps == [] then [] else ps[0] + [""] + Followed(ps[1..])
  }

  lemma {:induction false} FollowedJoin(a: seq<seq<string>>, b: seq<seq<string>>)
    ensures Followed(a + b) == Followed(a) + Followed(b)
  {
    if a == [] {
      assert a + b == b;
    } else {
      assert (a + b)[1..] == a[1..] + b;
      FollowedJoin(a[1..], b);
    }
  }

  lemma FollowedOne(p: seq<string>)
    ensures Followed([p]) == p + [""]
  {
    assert Followed([]) == [];
  }

  /** The output puts an empty line in front of what follows a heading; here it stands behind the heading. */
  lemma {:induction false} CategoriesFollowed(categories: seq<Category>)
    ensures AllCategoryLines(categories) + [""] == [""] + Followed(CategoryParagraphs(categories))
  {
    if categories != [] {
      var c, rest := categories[0], categories[1..];
      CategoriesFollowed(rest);
      FollowedJoin([["### " + c.title], c.lines], CategoryParagraphs(rest));
      FollowedJoin([["### " + c.title]], [c.lines]);
      FollowedOne(["### " + c.title]);
      FollowedOne(c.lines);
      assert [["### " + c.title]] + [c.lines] == [["### " + c.title], c.lines];
      Shuffle("### " + c.title, c.lines, AllCategoryLines(rest), Followed(CategoryParagraphs(rest)));
    }
  }

  lemma Shuffle(title: string, lines: seq<string>, rest: seq<string>, followed: seq<string>)
    requires rest + [""] == [""] + followed
    ensures (["", title, ""] + lines + rest) + [""] == [""] + (([title] + [""]) + (lines + [""]) + followed)
  {
    assert (["", title, ""] + lines + rest) + [""] == ["", title, ""] + lines + (rest + [""]);
  }

  lemma ReleaseFollowed(r: Release)
    ensures [r.heading] + BodyLines(r) == Followed(ReleaseParagraphs(r))
  {
    var leading := if r.leading == [] then [] else [r.leading];
    var categories := CategoryParagraphs(r.categories);
    CategoriesFollowed(r.categories);
    FollowedJoin([[r.heading]] + leading, categories);
    FollowedJoin([[r.heading]], leading);
    FollowedOne([r.heading]);
    FollowedOne(r.leading);
    if r.leading == [] {
      assert BodyLines(r) == AllCategoryLines(r.categories) + [""];
      assert [[r.heading]] + leading == [[r.heading]];
      assert [r.heading] + ([""] + Followed(categories)) == [r.heading] + [""] + Followed(categories);
    } else {
      assert BodyLines(r) == [""] + r.leading + (AllCategoryLines(r.categories) + [""]);
      assert [r.heading] + ([""] + r.leading + ([""] + Followed(categories)))
          == ([r.heading] + [""]) + (r.leading + [""]) + Followed(categories);
    }
  }

  lemma {:induction false} ReleasesFollowed(releases: seq<Release>)
    ensures ReleaseLines(releases) == Followed(AllReleaseParagraphs(releases))
  {
    if releases != [] {
      ReleaseFollowed(releases[0]);
      ReleasesFollowed(releases[1..]);
      FollowedJoin(ReleaseParagraphs(releases[0]), AllReleaseParagraphs(releases[1..]));
    }
  }

  lemma OutputFollowed(log: Changelog)
    ensures OutputLines(log) == Followed(Paragraphs(log))
  {
    ReleasesFollowed(log.releases);
    if log.prefix == [] {
      assert [] + AllReleaseParagraphs(log.releases) == AllReleaseParagraphs(log.releases);
    } else {
      FollowedJoin([log.prefix], AllReleaseParagraphs(log.releases));
      FollowedOne(log.prefix);
    }
  }

  // ---- the last one is dropped ----

  /** Ends in a line that is not empty. */
  predicate Solid(p: seq<string>) { p != [] && p[|p| - 1] != "" }

  lemma {:induction false} CategoriesAreSolid(categories: seq<Category>)
    requires forall i :: 0 <= i < |categories| ==> GoodCategory(categories[i])
    ensures forall p :: p in CategoryParagraphs(categories) ==> Solid(p)
  {
    if categories != [] {
      CategoriesAreSolid(categories[1..]);
      assert Solid(["### " + categories[0].title]) && Solid(categories[0].lines);
    }
  }

  lemma ReleaseIsSolid(r: Release)
    requires GoodRelease(r)
    ensures forall p :: p in ReleaseParagraphs(r) ==> Solid(p)
  {
    CategoriesAreSolid(r.categories);
  }

  lemma {:induction false} ReleasesAreSolid(releases: seq<Release>)
    requires forall i :: 0 <= i < |releases| ==> GoodRelease(releases[i])
    ensures forall p :: p in AllReleaseParagraphs(releases) ==> Solid(p)
  {
    if releases != [] {
      ReleaseIsSolid(releases[0]);
      ReleasesAreSolid(releases[1..]);
    }
  }

  lemma {:induction false} SpacedIsFollowed(ps: seq<seq<string>>)
    requires ps != [] && forall p :: p in ps ==> Solid(p)
    ensures Followed(ps) == Spaced(ps) + [""] && Solid(Spaced(ps))
  {
    if |ps| == 1 {
      assert ps == [ps[0]];
      FollowedOne(ps[0]);
    } else {
      SpacedIsFollowed(ps[1..]);
      assert ps[0] + [""] + (Spaced(ps[1..]) + [""]) == (ps[0] + [""] + Spaced(ps[1..])) + [""];
    }
  }

  lemma PopOne(lines: seq<string>)
    requires Solid(lines)
    ensures PopEmpty(lines + [""]) == lines
  {
    assert (lines + [""])[..|lines|] == lines;
  }

  /** The rendered text is the paragraphs, any two of them one empty line apart, and a line break. */
  lemma RenderIsParagraphs(log: Changelog)
    requires GoodLog(log)
    ensures Render(log) == Join(Spaced(Paragraphs(log))) + "\n"
  {
    OutputFollowed(log);
    ReleasesAreSolid(log.releases);
    var ps := Paragraphs(log);
    if ps != [] {
      SpacedIsFollowed(ps);
      PopOne(Spaced(ps));
    }
  }
}
