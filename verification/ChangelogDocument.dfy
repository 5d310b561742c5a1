/** A changelog read into sections and written back: parsing what was rendered gives the same sections,
    up to blank padding and line numbers. */
module ChangelogDocument {
  import opened ChangelogText
  import opened Cutting

  // ---- blank padding ----

  predicate AllBlank(lines: seq<string>) {
    forall i :: 0 <= i < |lines| ==> Blank(lines[i])
  }

  function DropStart(lines: seq<string>): seq<string> {
    if lines != [] && Blank(lines[0]) then DropStart(lines[1..]) else lines
  }

  function DropEnd(lines: seq<string>): seq<string> {
    if lines != [] && Blank(lines[|lines| - 1]) then DropEnd(lines[..|lines| - 1]) else lines
  }

  function TrimBlank(lines: seq<string>): seq<string> { DropEnd(DropStart(lines)) }

  predicate Trimmed(lines: seq<string>) {
    lines != [] ==> !Blank(lines[0]) && !Blank(lines[|lines| - 1])
  }

  lemma {:induction false} DropStartPadded(a: seq<string>, x: seq<string>)
    requires AllBlank(a)
    ensures DropStart(a + x) == DropStart(x)
  {
    if a == [] {
      assert a + x == x;
    } else {
      assert (a + x)[1..] == a[1..] + x;
      DropStartPadded(a[1..], x);
    }
  }

  lemma {:induction false} DropEndPadded(x: seq<string>, b: seq<string>)
    requires AllBlank(b)
    ensures DropEnd(x + b) == DropEnd(x)
  {
    if b == [] {
      assert x + b == x;
    } else {
      assert (x + b)[..|x + b| - 1] == x + b[..|b| - 1];
      DropEndPadded(x, b[..|b| - 1]);
    }
  }

  /** The padding that is trimmed off. */
  lemma {:induction false} DropStartSplit(lines: seq<string>) returns (a: seq<string>)
    ensures AllBlank(a) && lines == a + DropStart(lines)
    ensures DropStart(lines) != [] ==> !Blank(DropStart(lines)[0])
  {
    if lines != [] && Blank(lines[0]) {
      a := DropStartSplit(lines[1..]);
      a := [lines[0]] + a;
    } else {
      a := [];
    }
  }

  lemma {:induction false} DropEndSplit(lines: seq<string>) returns (b: seq<string>)
    ensures AllBlank(b) && lines == DropEnd(lines) + b
    ensures DropEnd(lines) != [] ==> !Blank(DropEnd(lines)[|DropEnd(lines)| - 1])
  {
    if lines != [] && Blank(lines[|lines| - 1]) {
      b := DropEndSplit(lines[..|lines| - 1]);
      b := b + [lines[|lines| - 1]];
    } else {
      b := [];
    }
  }

  lemma TrimSplit(lines: seq<string>) returns (a: seq<string>, b: seq<string>)
    ensures AllBlank(a) && AllBlank(b) && lines == a + TrimBlank(lines) + b && Trimmed(TrimBlank(lines))
  {
    a := DropStartSplit(lines);
    b := DropEndSplit(DropStart(lines));
    if TrimBlank(lines) != [] { assert TrimBlank(lines)[0] == DropStart(lines)[0]; }
  }

  /** Only one list between blank padding starts and ends with text. */
  lemma TrimUnique(a: seq<string>, x: seq<string>, b: seq<string>)
    requires AllBlank(a) && AllBlank(b) && Trimmed(x)
    ensures TrimBlank(a + x + b) == x
  {
    assert a + x + b == a + (x + b);
    DropStartPadded(a, x + b);
    if x == [] {
      assert x + b == b + [];
      DropStartPadded(b, []);
    } else {
      assert DropStart(x + b) == x + b;
      DropEndPadded(x, b);
    }
  }

  lemma TrimIdentity(lines: seq<string>)
    requires Trimmed(lines)
    ensures TrimBlank(lines) == lines
  {
    TrimUnique([], lines, []);
    assert [] + lines + [] == lines;
  }

  lemma TrimPadded(a: seq<string>, x: seq<string>, b: seq<string>)
    requires AllBlank(a) && AllBlank(b)
    ensures TrimBlank(a + x + b) == TrimBlank(x)
  {
    var c, d := TrimSplit(x);
    assert a + x + b == (a + c) + TrimBlank(x) + (d + b);
    TrimUnique(a + c, TrimBlank(x), d + b);
  }

  lemma TrimMembers(lines: seq<string>)
    ensures forall t :: t in TrimBlank(lines) ==> t in lines
    ensures forall t :: t in lines && !Blank(t) ==> t in TrimBlank(lines)
    ensures Trimmed(TrimBlank(lines)) && TrimBlank(TrimBlank(lines)) == TrimBlank(lines)
  {
    var a, b := TrimSplit(lines);
    var x := TrimBlank(lines);
    TrimUnique([], x, []);
    assert [] + x + [] == x;
    forall t | t in lines && !Blank(t) ensures t in x {
      assert t in a + x + b;
      assert t !in a && t !in b;
    }
  }

  lemma DropFirst(lines: seq<string>, start: nat)
    requires start < |lines| && Blank(lines[start])
    ensures DropStart(lines[start..]) == DropStart(lines[start + 1..])
  {
    assert lines[start..][1..] == lines[start + 1..];
  }

  lemma DropLast(lines: seq<string>, start: nat, end: nat)
    requires start < end <= |lines| && Blank(lines[end - 1])
    ensures DropEnd(lines[start..end]) == DropEnd(lines[start..end - 1])
  {
    assert lines[start..end][..end - start - 1] == lines[start..end - 1];
  }

  method TrimBlankLines(lines: seq<string>) returns (r: seq<string>)
    ensures r == TrimBlank(lines)
  {
    var start, end := 0, |lines|;
    while start < end && Blank(lines[start])
      invariant 0 <= start <= end == |lines| && DropStart(lines) == DropStart(lines[start..])
    {
      DropFirst(lines, start);
      start := start + 1;
    }
    ghost var rest := lines[start..];
    assert DropStart(lines) == rest == lines[start..end];
    while end > start && Blank(lines[end - 1])
      invariant start <= end <= |lines| && DropEnd(rest) == DropEnd(lines[start..end])
    {
      DropLast(lines, start, end);
      end := end - 1;
    }
    r := lines[start..end];
  }

  // ---- the document ----

  datatype NumberedLine = NumberedLine(text: string, number: nat)

  datatype Subsection = Subsection(title: string, lines: seq<NumberedLine>)

  datatype Section = Section(heading: string, title: string, leading: seq<NumberedLine>, subsections: seq<Subsection>)

  datatype Document = Document(prefix: seq<NumberedLine>, sections: seq<Section>)

  function Texts(lines: seq<NumberedLine>): (r: seq<string>)
    ensures |r| == |lines|
  {
    Map((l: NumberedLine) => l.text, lines)
  }

  function Numbered(texts: seq<string>): (r: seq<NumberedLine>)
    ensures |r| == |texts|
  {
    seq(|texts|, i requires 0 <= i < |texts| => NumberedLine(texts[i], i + 1))
  }

  predicate OpensRelease(line: NumberedLine) { IsReleaseHeading(line.text) }

  predicate OpensSubsection(line: NumberedLine) { IsSubsectionHeading(line.text) }

  function ToSubsection(b: Block<NumberedLine>): Subsection {
    Subsection(if OpensSubsection(b.head) then SubsectionTitle(b.head.text) else "", b.body)
  }

  function ToSection(b: Block<NumberedLine>): Section {
    var c := Cut(OpensSubsection, b.body);
    Section(b.head.text, if OpensRelease(b.head) then ReleaseTitle(b.head.text) else "", c.lead,
            Map(ToSubsection, c.blocks))
  }

  function Parse(content: string): Document {
    var c := Cut(OpensRelease, Numbered(ContentLines(content)));
    Document(c.lead, Map(ToSection, c.blocks))
  }

  method ParseReleaseSection(b: Block<NumberedLine>) returns (section: Section)
    requires OpensRelease(b.head)
    ensures section == ToSection(b)
  {
    var cuts := CutLines(OpensSubsection, b.body);
    CutWhole(OpensSubsection, b.body);
    var subsections := ParseSubsections(cuts.blocks);
    section := Section(b.head.text, ReleaseTitle(b.head.text), cuts.lead, subsections);
  }

  method ParseSubsections(blocks: seq<Block<NumberedLine>>) returns (subsections: seq<Subsection>)
    requires GoodBlocks(OpensSubsection, blocks)
    ensures subsections == Map(ToSubsection, blocks)
  {
    subsections := [];
    for i := 0 to |blocks|
      invariant |subsections| == i && forall k :: 0 <= k < i ==> subsections[k] == ToSubsection(blocks[k])
    {
      assert GoodBlock(OpensSubsection, blocks[i]);
      subsections := subsections + [Subsection(SubsectionTitle(blocks[i].head.text), blocks[i].body)];
    }
  }

  method ParseSections(blocks: seq<Block<NumberedLine>>) returns (sections: seq<Section>)
    requires GoodBlocks(OpensRelease, blocks)
    ensures sections == Map(ToSection, blocks)
  {
    sections := [];
    for i := 0 to |blocks|
      invariant |sections| == i && forall k :: 0 <= k < i ==> sections[k] == ToSection(blocks[k])
    {
      assert GoodBlock(OpensRelease, blocks[i]);
      var section := ParseReleaseSection(blocks[i]);
      sections := sections + [section];
    }
  }

  method ParseChangelog(content: string) returns (doc: Document)
    ensures doc == Parse(content)
  {
    var lines := Numbered(ContentLines(content));
    var cuts := CutLines(OpensRelease, lines);
    CutWhole(OpensRelease, lines);
    var sections := ParseSections(cuts.blocks);
    doc := Document(cuts.lead, sections);
  }

  // ---- the same document up to blank padding and line numbers ----

  datatype Category = Category(title: string, lines: seq<string>)

  datatype Release = Release(heading: string, leading: seq<string>, categories: seq<Category>)

  datatype Changelog = Changelog(prefix: seq<string>, releases: seq<Release>)

  /** The categories that hold anything, trimmed. */
  function Categories(subsections: seq<Subsection>): seq<Category> {
    if subsections == [] then []
    else
      var lines := TrimBlank(Texts(subsections[0].lines));
      (if lines == [] then [] else [Category(subsections[0].title, lines)]) + Categories(subsections[1..])
  }

  function ReleaseOf(section: Section): Release {
    Release(section.heading, TrimBlank(Texts(section.leading)), Categories(section.subsections))
  }

  function View(doc: Document): Changelog {
    Changelog(TrimBlank(Texts(doc.prefix)), Map(ReleaseOf, doc.sections))
  }

  // ---- reading, at the level of texts ----

  function ReadCategories(blocks: seq<Block<string>>): seq<Category> {
    if blocks == [] then []
    else
      var b := blocks[0];
      var lines := TrimBlank(b.body);
      (if lines == [] then []
       else [Category(if IsSubsectionHeading(b.head) then SubsectionTitle(b.head) else "", lines)])
      + ReadCategories(blocks[1..])
  }

  function ReadRelease(b: Block<string>): Release {
    var c := Cut(IsSubsectionHeading, b.body);
    Release(b.head, TrimBlank(c.lead), ReadCategories(c.blocks))
  }

  function Read(lines: seq<string>): Changelog {
    var c := Cut(IsReleaseHeading, lines);
    Changelog(TrimBlank(c.lead), Map(ReadRelease, c.blocks))
  }

  lemma {:induction false} CategoriesAreRead(blocks: seq<Block<NumberedLine>>)
    ensures Categories(Map(ToSubsection, blocks)) == ReadCategories(MapBlocks((l: NumberedLine) => l.text, blocks))
  {
    if blocks != [] {
      var f := (l: NumberedLine) => l.text;
      assert Map(ToSubsection, blocks)[1..] == Map(ToSubsection, blocks[1..]);
      assert MapBlocks(f, blocks)[1..] == MapBlocks(f, blocks[1..]);
      CategoriesAreRead(blocks[1..]);
    }
  }

  lemma ReleaseIsRead(b: Block<NumberedLine>)
    ensures ReleaseOf(ToSection(b)) == ReadRelease(MapBlock((l: NumberedLine) => l.text, b))
  {
    var f := (l: NumberedLine) => l.text;
    CutMapped(f, OpensSubsection, IsSubsectionHeading, b.body);
    CategoriesAreRead(Cut(OpensSubsection, b.body).blocks);
  }

  /** Parsing and then forgetting padding and numbers is reading the texts. */
  lemma ParseIsRead(content: string)
    ensures View(Parse(content)) == Read(ContentLines(content))
  {
    var lines := Numbered(ContentLines(content));
    var f := (l: NumberedLine) => l.text;
    assert Map(f, lines) == ContentLines(content);
    CutMapped(f, OpensRelease, IsReleaseHeading, lines);
    var c := Cut(OpensRelease, lines);
    forall i | 0 <= i < |c.blocks| ensures ReleaseOf(ToSection(c.blocks[i])) == ReadRelease(MapBlock(f, c.blocks[i])) {
      ReleaseIsRead(c.blocks[i]);
    }
    assert Map(ReleaseOf, Map(ToSection, c.blocks)) == Map(ReadRelease, MapBlocks(f, c.blocks));
  }

  // ---- rendering ----

  function CategoryLines(c: Category): seq<string> {
    ["", "### " + c.title, ""] + c.lines
  }

  function AllCategoryLines(categories: seq<Category>): seq<string> {
    if categories == [] then [] else CategoryLines(categories[0]) + AllCategoryLines(categories[1..])
  }

  function BodyLines(r: Release): seq<string> {
    (if r.leading == [] then [] else [""] + r.leading) + AllCategoryLines(r.categories) + [""]
  }

  function ReleaseLines(releases: seq<Release>): seq<string> {
    if releases == [] then [] else [releases[0].heading] + BodyLines(releases[0]) + ReleaseLines(releases[1..])
  }

  function OutputLines(log: Changelog): seq<string> {
    (if log.prefix == [] then [] else log.prefix + [""]) + ReleaseLines(log.releases)
  }

  function PopEmpty(lines: seq<string>): seq<string> {
    if lines != [] && lines[|lines| - 1] == "" then PopEmpty(lines[..|lines| - 1]) else lines
  }

  function Render(log: Changelog): string {
    Join(PopEmpty(OutputLines(log))) + "\n"
  }

  // ---- what can be read back ----

  predicate BodyLine(line: string) {
    Plain(line) && !IsReleaseHeading(line) && !IsSubsectionHeading(line)
  }

  predicate BodyText(lines: seq<string>) {
    Trimmed(lines) && forall i :: 0 <= i < |lines| ==> BodyLine(lines[i])
  }

  predicate GoodCategory(c: Category) {
    Tight(c.title) && Plain(c.title) && c.lines != [] && BodyText(c.lines)
  }

  predicate GoodRelease(r: Release) {
    && IsReleaseHeading(r.heading) && Plain(r.heading) && BodyText(r.leading)
    && forall i :: 0 <= i < |r.categories| ==> GoodCategory(r.categories[i])
  }

  predicate PrefixLine(line: string) { Plain(line) && !IsReleaseHeading(line) }

  predicate GoodLog(log: Changelog) {
    && Trimmed(log.prefix) && (forall i :: 0 <= i < |log.prefix| ==> PrefixLine(log.prefix[i]))
    && forall i :: 0 <= i < |log.releases| ==> GoodRelease(log.releases[i])
  }

  // ---- a blank last line changes nothing that is read ----

  lemma {:induction false} CutSnoc<L>(isHead: L -> bool, lines: seq<L>, x: L)
    requires !isHead(x)
    ensures var c, d := Cut(isHead, lines), Cut(isHead, lines + [x]);
      if c.blocks == [] then d == Cuts(c.lead + [x], [])
      else
        var n := |c.blocks| - 1;
        d == Cuts(c.lead, c.blocks[..n] + [Block(c.blocks[n].head, c.blocks[n].body + [x])])
  {
    if lines != [] {
      SnocTail(lines, x);
      CutSnoc(isHead, lines[1..], x);
    }
  }

  lemma TrimSnocBlank(lines: seq<string>)
    ensures TrimBlank(lines + [""]) == TrimBlank(lines)
  {
    TrimPadded([], lines, [""]);
    assert [] + lines + [""] == lines + [""];
  }

  lemma {:induction false} ReadCategoriesSnoc(blocks: seq<Block<string>>, b: Block<string>)
    ensures ReadCategories(blocks + [b]) == ReadCategories(blocks) + ReadCategories([b])
  {
    if blocks != [] {
      SnocTail(blocks, b);
      ReadCategoriesSnoc(blocks[1..], b);
    } else {
      SnocEmpty(blocks, b);
    }
  }

  lemma ReadReleaseSnoc(head: string, body: seq<string>)
    ensures ReadRelease(Block(head, body + [""])) == ReadRelease(Block(head, body))
  {
    var c := Cut(IsSubsectionHeading, body);
    CutSnoc(IsSubsectionHeading, body, "");
    if c.blocks == [] {
      TrimSnocBlank(c.lead);
    } else {
      var n := |c.blocks| - 1;
      var last := c.blocks[n];
      TrimSnocBlank(last.body);
      ReadCategoriesSnoc(c.blocks[..n], last);
      ReadCategoriesSnoc(c.blocks[..n], Block(last.head, last.body + [""]));
      assert c.blocks == c.blocks[..n] + [last];
    }
  }

  lemma ReadSnoc(lines: seq<string>)
    ensures Read(lines + [""]) == Read(lines)
  {
    var c := Cut(IsReleaseHeading, lines);
    CutSnoc(IsReleaseHeading, lines, "");
    if c.blocks == [] {
      TrimSnocBlank(c.lead);
    } else {
      var n := |c.blocks| - 1;
      ReadReleaseSnoc(c.blocks[n].head, c.blocks[n].body);
      MapLast(ReadRelease, c.blocks, Cut(IsReleaseHeading, lines + [""]).blocks);
    }
  }

  lemma MapLast<A, B>(f: A -> B, a: seq<A>, b: seq<A>)
    requires |a| == |b| > 0 && a[..|a| - 1] == b[..|a| - 1] && f(a[|a| - 1]) == f(b[|a| - 1])
    ensures Map(f, a) == Map(f, b)
  {
    forall i | 0 <= i < |a| - 1 ensures a[i] == b[i] { assert a[..|a| - 1][i] == b[..|a| - 1][i]; }
  }

  lemma {:induction false} ReadPopped(lines: seq<string>)
    ensures Read(PopEmpty(lines)) == Read(lines)
    ensures forall t :: t in PopEmpty(lines) ==> t in lines
  {
    if lines != [] && lines[|lines| - 1] == "" {
      ReadPopped(lines[..|lines| - 1]);
      ReadSnoc(lines[..|lines| - 1]);
      assert lines == lines[..|lines| - 1] + [""];
    }
  }

  // ---- the round trip ----

  function CategoryBlock(c: Category): Block<string> {
    Block("### " + c.title, [""] + c.lines + [""])
  }

  function CategoryBlocks(categories: seq<Category>): (r: seq<Block<string>>)
    ensures |r| == |categories| && forall i :: 0 <= i < |r| ==> r[i] == CategoryBlock(categories[i])
  {
    seq(|categories|, i requires 0 <= i < |categories| => CategoryBlock(categories[i]))
  }

  /** Every category's blank line in front belongs to what stands before it. */
  lemma LinesOfBlock(c: Category)
    ensures CategoryLines(c) + [""] == [""] + Whole(CategoryBlock(c))
  {
    assert Whole(CategoryBlock(c)) == ["### " + c.title] + [""] + c.lines + [""];
  }

  lemma {:induction false} CategoryLinesAreBlocks(categories: seq<Category>)
    ensures AllCategoryLines(categories) + [""] == [""] + Uncut(CategoryBlocks(categories))
  {
    if categories != [] {
      CategoryLinesAreBlocks(categories[1..]);
      assert CategoryBlocks(categories)[1..] == CategoryBlocks(categories[1..]);
      var c := categories[0];
      LinesOfBlock(c);
      var rest := Uncut(CategoryBlocks(categories[1..]));
      calc {
        AllCategoryLines(categories) + [""];
        (CategoryLines(c) + AllCategoryLines(categories[1..])) + [""];
        { Assoc(CategoryLines(c), AllCategoryLines(categories[1..]), [""]); }
        CategoryLines(c) + ([""] + rest);
        { Assoc(CategoryLines(c), [""], rest); }
        ([""] + Whole(CategoryBlock(c))) + rest;
        { Assoc([""], Whole(CategoryBlock(c)), rest); }
        [""] + Uncut(CategoryBlocks(categories));
      }
    } else {
      assert Uncut(CategoryBlocks(categories)) == [];
    }
  }

  lemma {:induction false} BlocksReadBack(categories: seq<Category>)
    requires forall i :: 0 <= i < |categories| ==> GoodCategory(categories[i])
    ensures ReadCategories(CategoryBlocks(categories)) == categories
  {
    if categories != [] {
      var c := categories[0];
      assert CategoryBlocks(categories)[1..] == CategoryBlocks(categories[1..]);
      RenderedHeading(c.title);
      TrimUnique([""], c.lines, [""]);
      BlocksReadBack(categories[1..]);
    }
  }

  function Front(leading: seq<string>): seq<string> {
    if leading == [] then [] else [""] + leading
  }

  lemma BodyLinesAre(r: Release)
    ensures BodyLines(r) == (Front(r.leading) + [""]) + Uncut(CategoryBlocks(r.categories))
  {
    CategoryLinesAreBlocks(r.categories);
    var front, middle, rest := Front(r.leading), AllCategoryLines(r.categories), Uncut(CategoryBlocks(r.categories));
    calc {
      BodyLines(r);
      front + middle + [""];
      front + (middle + [""]);
      front + ([""] + rest);
      (front + [""]) + rest;
    }
  }

  lemma BodyLinesCut(r: Release)
    requires GoodRelease(r)
    ensures Cut(IsSubsectionHeading, BodyLines(r)) == Cuts(Front(r.leading) + [""], CategoryBlocks(r.categories))
  {
    var front, blocks := Front(r.leading), CategoryBlocks(r.categories);
    BodyLinesAre(r);
    forall i | 0 <= i < |blocks| ensures GoodBlock(IsSubsectionHeading, blocks[i]) {
      CategoryBlockGood(r.categories[i]);
    }
    forall i | 0 <= i < |r.leading| ensures !IsSubsectionHeading(r.leading[i]) { assert BodyLine(r.leading[i]); }
    CutUnique(IsSubsectionHeading, front + [""], blocks);
  }

  lemma CategoryBlockGood(c: Category)
    requires GoodCategory(c)
    ensures GoodBlock(IsSubsectionHeading, CategoryBlock(c))
  {
    RenderedHeading(c.title);
    forall i | 0 <= i < |c.lines| ensures !IsSubsectionHeading(c.lines[i]) { assert BodyLine(c.lines[i]); }
  }

  lemma FrontTrimmed(leading: seq<string>)
    requires Trimmed(leading)
    ensures TrimBlank(Front(leading) + [""]) == leading
  {
    if leading != [] {
      TrimUnique([""], leading, [""]);
    } else {
      TrimUnique([""], [], []);
      assert [""] + [] + [] == Front(leading) + [""];
    }
  }

  lemma ReleaseReadBack(r: Release)
    requires GoodRelease(r)
    ensures ReadRelease(Block(r.heading, BodyLines(r))) == r
  {
    BodyLinesCut(r);
    BlocksReadBack(r.categories);
    FrontTrimmed(r.leading);
  }

  lemma {:induction false} CategoryLinesArePlain(categories: seq<Category>)
    requires forall i :: 0 <= i < |categories| ==> GoodCategory(categories[i])
    ensures forall t :: t in AllCategoryLines(categories) ==> PrefixLine(t)
  {
    if categories != [] {
      var c := categories[0];
      assert GoodCategory(c);
      CategoryLinesArePlain(categories[1..]);
      RenderedHeading(c.title);
      forall t | t in CategoryLines(c) ensures PrefixLine(t) {
        if t in c.lines {
          var i :| 0 <= i < |c.lines| && c.lines[i] == t;
          assert BodyLine(c.lines[i]);
        }
      }
    }
  }

  lemma BodyLinesArePlain(r: Release)
    requires GoodRelease(r)
    ensures forall t :: t in BodyLines(r) ==> PrefixLine(t)
  {
    CategoryLinesArePlain(r.categories);
    forall t | t in r.leading ensures PrefixLine(t) {
      var i :| 0 <= i < |r.leading| && r.leading[i] == t;
      assert BodyLine(r.leading[i]);
    }
  }

  function ReleaseBlocks(releases: seq<Release>): (r: seq<Block<string>>)
    ensures |r| == |releases|
    ensures forall i :: 0 <= i < |r| ==> r[i] == Block(releases[i].heading, BodyLines(releases[i]))
  {
    seq(|releases|, i requires 0 <= i < |releases| => Block(releases[i].heading, BodyLines(releases[i])))
  }

  lemma {:induction false} ReleaseLinesAreBlocks(releases: seq<Release>)
    requires forall i :: 0 <= i < |releases| ==> GoodRelease(releases[i])
    ensures ReleaseLines(releases) == Uncut(ReleaseBlocks(releases))
    ensures forall t :: t in ReleaseLines(releases) ==> Plain(t)
  {
    if releases != [] {
      assert GoodRelease(releases[0]);
      ReleaseLinesAreBlocks(releases[1..]);
      assert ReleaseBlocks(releases)[1..] == ReleaseBlocks(releases[1..]);
      BodyLinesArePlain(releases[0]);
    }
  }

  function PrefixLines(prefix: seq<string>): seq<string> {
    if prefix == [] then [] else prefix + [""]
  }

  lemma PrefixTrimmed(prefix: seq<string>)
    requires Trimmed(prefix)
    ensures TrimBlank(PrefixLines(prefix)) == prefix
  {
    var tail := if prefix == [] then [] else [""];
    TrimUnique([], prefix, tail);
    assert [] + prefix + tail == PrefixLines(prefix);
  }

  lemma ReleaseBlockGood(r: Release)
    requires GoodRelease(r)
    ensures GoodBlock(IsReleaseHeading, Block(r.heading, BodyLines(r)))
  {
    BodyLinesArePlain(r);
    var body := BodyLines(r);
    forall j | 0 <= j < |body| ensures !IsReleaseHeading(body[j]) { assert body[j] in body; }
  }

  lemma OutputCut(log: Changelog)
    requires GoodLog(log)
    ensures Cut(IsReleaseHeading, OutputLines(log)) == Cuts(PrefixLines(log.prefix), ReleaseBlocks(log.releases))
  {
    var front, blocks := PrefixLines(log.prefix), ReleaseBlocks(log.releases);
    ReleaseLinesAreBlocks(log.releases);
    forall i | 0 <= i < |blocks| ensures GoodBlock(IsReleaseHeading, blocks[i]) {
      ReleaseBlockGood(log.releases[i]);
    }
    forall i | 0 <= i < |front| ensures !IsReleaseHeading(front[i]) {
      if i < |log.prefix| { assert PrefixLine(log.prefix[i]); }
    }
    CutUnique(IsReleaseHeading, front, blocks);
  }

  lemma OutputReadBack(log: Changelog)
    requires GoodLog(log)
    ensures Read(OutputLines(log)) == log
  {
    OutputCut(log);
    PrefixTrimmed(log.prefix);
    var blocks := ReleaseBlocks(log.releases);
    forall i | 0 <= i < |blocks| ensures ReadRelease(blocks[i]) == log.releases[i] {
      ReleaseReadBack(log.releases[i]);
    }
    assert Map(ReadRelease, blocks) == log.releases;
  }

  lemma OutputIsPlain(log: Changelog)
    requires GoodLog(log)
    ensures forall t :: t in OutputLines(log) ==> Plain(t)
  {
    ReleaseLinesAreBlocks(log.releases);
    forall t | t in PrefixLines(log.prefix) ensures Plain(t) {
      if t in log.prefix {
        var i :| 0 <= i < |log.prefix| && log.prefix[i] == t;
        assert PrefixLine(log.prefix[i]);
      }
    }
    assert OutputLines(log) == PrefixLines(log.prefix) + ReleaseLines(log.releases);
  }

  /** Parsing a rendered changelog gives it back, up to blank padding and line numbers. */
  lemma RenderedIsParsed(log: Changelog)
    requires GoodLog(log)
    ensures View(Parse(Render(log))) == log
  {
    var out := PopEmpty(OutputLines(log));
    OutputReadBack(log);
    OutputIsPlain(log);
    ReadPopped(OutputLines(log));
    ParseIsRead(Render(log));
    if out == [] {
      assert Render(log) == "\n";
      assert "\n"[..0] == "";
      assert ContentLines("\n") == [""];
      ReadSnoc([]);
      assert [] + [""] == [""];
    } else {
      forall i | 0 <= i < |out| ensures Plain(out[i]) { assert out[i] in out; }
      ContentRoundTrip(out);
    }
  }

  // ---- everything that is parsed can be read back ----

  lemma {:induction false} ReadCategoriesGood(blocks: seq<Block<string>>)
    requires GoodBlocks(IsSubsectionHeading, blocks)
    requires forall i :: 0 <= i < |blocks| ==> Plain(blocks[i].head)
    requires forall i, t :: 0 <= i < |blocks| && t in blocks[i].body ==> PrefixLine(t)
    ensures forall i :: 0 <= i < |ReadCategories(blocks)| ==> GoodCategory(ReadCategories(blocks)[i])
  {
    if blocks != [] {
      var b := blocks[0];
      assert GoodBlock(IsSubsectionHeading, b);
      assert GoodBlocks(IsSubsectionHeading, blocks[1..]);
      ReadCategoriesGood(blocks[1..]);
      TrimFacts(b.head[3..]);
      assert forall c :: c in b.head[3..] ==> c in b.head;
      TrimmedBody(b.body);
    }
  }

  lemma TrimmedBody(lines: seq<string>)
    requires Headless(IsSubsectionHeading, lines) && forall t :: t in lines ==> PrefixLine(t)
    ensures BodyText(TrimBlank(lines))
  {
    TrimMembers(lines);
    var x := TrimBlank(lines);
    forall i | 0 <= i < |x| ensures BodyLine(x[i]) {
      assert x[i] in x;
      var j :| 0 <= j < |lines| && lines[j] == x[i];
    }
  }

  lemma ReadReleaseGood(b: Block<string>)
    requires GoodBlock(IsReleaseHeading, b) && Plain(b.head) && forall t :: t in b.body ==> Plain(t)
    ensures GoodRelease(ReadRelease(b))
  {
    var c := Cut(IsSubsectionHeading, b.body);
    CutWhole(IsSubsectionHeading, b.body);
    forall t | t in b.body ensures PrefixLine(t) {
      var i :| 0 <= i < |b.body| && b.body[i] == t;
    }
    forall i | 0 <= i < |c.blocks| ensures forall t :: t in Whole(c.blocks[i]) ==> t in b.body {
      forall t | t in Whole(c.blocks[i]) ensures t in b.body { UncutMembers(c.blocks, t); }
    }
    forall i | 0 <= i < |c.blocks|
      ensures Plain(c.blocks[i].head) && forall t :: t in c.blocks[i].body ==> PrefixLine(t)
    {
      assert c.blocks[i].head in Whole(c.blocks[i]);
      assert forall t :: t in c.blocks[i].body ==> t in Whole(c.blocks[i]);
    }
    ReadCategoriesGood(c.blocks);
    TrimmedBody(c.lead);
  }

  lemma ReadIsGood(lines: seq<string>)
    requires AllPlain(lines)
    ensures GoodLog(Read(lines))
  {
    var c := Cut(IsReleaseHeading, lines);
    CutWhole(IsReleaseHeading, lines);
    TrimMembers(c.lead);
    forall i | 0 <= i < |TrimBlank(c.lead)| ensures PrefixLine(TrimBlank(c.lead)[i]) {
      assert TrimBlank(c.lead)[i] in c.lead;
      var j :| 0 <= j < |c.lead| && c.lead[j] == TrimBlank(c.lead)[i];
      assert c.lead[j] in lines;
    }
    forall i | 0 <= i < |c.blocks| ensures GoodRelease(ReadRelease(c.blocks[i])) {
      forall t | t in Whole(c.blocks[i]) ensures Plain(t) {
        UncutMembers(c.blocks, t);
        assert t in lines;
      }
      assert GoodBlock(IsReleaseHeading, c.blocks[i]);
      assert c.blocks[i].head in Whole(c.blocks[i]);
      forall t | t in c.blocks[i].body ensures Plain(t) { assert t in Whole(c.blocks[i]); }
      ReadReleaseGood(c.blocks[i]);
    }
  }

  /** Rendering what was parsed and parsing it again loses only padding and numbers. */
  lemma ParsedIsRereadable(content: string)
    ensures GoodLog(View(Parse(content)))
    ensures View(Parse(Render(View(Parse(content))))) == View(Parse(content))
  {
    ParseIsRead(content);
    ContentLinesArePlain(content);
    ReadIsGood(ContentLines(content));
    RenderedIsParsed(View(Parse(content)));
  }
}
