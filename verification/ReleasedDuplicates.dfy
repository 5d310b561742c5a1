/** Dropping Unreleased items that a released section already holds, or that history held, on a parsed
    document with its line numbers. */
module ReleasedDuplicates {
  import opened ChangelogText
  import opened Cutting
  import opened ChangelogDocument
  import opened ChangelogItems
  import opened ChangelogFix
  import opened ChangelogConverge
  import opened NumberedItems

  /** As parsing leaves a document: titles agree with headings, and line numbers ascend. */
  predicate Titled(section: Section) { section.title == TitleOf(section.heading) }

  predicate AllRising(section: Section) {
    forall j :: 0 <= j < |section.subsections| ==> Rising(section.subsections[j].lines)
  }

  predicate Numbering(sections: seq<Section>) {
    forall i :: 0 <= i < |sections| ==> Titled(sections[i]) && AllRising(sections[i])
  }

  lemma RisingBlock(lines: seq<NumberedLine>, isHead: NumberedLine -> bool, i: nat)
    requires Rising(lines) && i < |Cut(isHead, lines).blocks|
    ensures Rising(Cut(isHead, lines).blocks[i].body)
  {
    var c := Cut(isHead, lines);
    CutWhole(isHead, lines);
    RisingParts(c.lead, Uncut(c.blocks));
    RisingInside(c.blocks, i);
  }

  lemma {:induction false} RisingInside(blocks: seq<Block<NumberedLine>>, i: nat)
    requires Rising(Uncut(blocks)) && i < |blocks|
    ensures Rising(blocks[i].body)
  {
    RisingParts(Whole(blocks[0]), Uncut(blocks[1..]));
    if i == 0 { RisingParts([blocks[0].head], blocks[0].body); } else { RisingInside(blocks[1..], i - 1); }
  }

  lemma ParsedNumbering(content: string)
    ensures Numbering(Parse(content).sections)
  {
    var lines := Numbered(ContentLines(content));
    assert Rising(lines);
    var c := Cut(OpensRelease, lines);
    forall i | 0 <= i < |c.blocks| ensures AllRising(ToSection(c.blocks[i])) {
      RisingBlock(lines, OpensRelease, i);
      var d := Cut(OpensSubsection, c.blocks[i].body);
      forall j | 0 <= j < |d.blocks| ensures Rising(d.blocks[j].body) {
        RisingBlock(c.blocks[i].body, OpensSubsection, j);
      }
    }
  }

  // ---- the released keys ----

  function SubsectionKeys(subsections: seq<Subsection>): set<Key> {
    if subsections == [] then {} else KeySet(Texts(subsections[0].lines)) + SubsectionKeys(subsections[1..])
  }

  lemma {:induction false} KeysOfCategories(subsections: seq<Subsection>)
    ensures KeysIn(Categories(subsections)) == SubsectionKeys(subsections)
  {
    if subsections != [] {
      var texts := Texts(subsections[0].lines);
      var lines := TrimBlank(texts);
      KeysOfCategories(subsections[1..]);
      KeysTrimmed(texts);
      NoKeys();
      assert KeySet(lines) == KeySet(texts);
      KeysInCons(Category(subsections[0].title, lines), Categories(subsections[1..]));
      assert [] + Categories(subsections[1..]) == Categories(subsections[1..]);
    }
  }

  lemma {:induction false} SubsectionKeysSnoc(subsections: seq<Subsection>, last: Subsection)
    ensures SubsectionKeys(subsections + [last]) == SubsectionKeys(subsections) + KeySet(Texts(last.lines))
  {
    if subsections == [] {
      SnocEmpty(subsections, last);
    } else {
      SnocTail(subsections, last);
      SubsectionKeysSnoc(subsections[1..], last);
    }
  }

  lemma {:induction false} ReleasedKeysSnoc(releases: seq<Release>, last: Release)
    ensures ReleasedKeys(releases + [last])
         == ReleasedKeys(releases) + if Unreleased(last) then {} else KeysIn(last.categories)
  {
    if releases == [] {
      SnocEmpty(releases, last);
    } else {
      SnocTail(releases, last);
      ReleasedKeysSnoc(releases[1..], last);
    }
  }

  method LineKeys(lines: seq<NumberedLine>) returns (keys: set<Key>)
    ensures keys == KeySet(Texts(lines))
  {
    var items := ParseItems(lines);
    CutTexts(lines);
    ghost var all := Keys(Texts(lines));
    assert forall i :: 0 <= i < |items| ==> items[i].lines == all[i];
    keys := {};
    for k := 0 to |items|
      invariant forall key :: key in keys <==> key in all[..k]
    {
      assert all[..k + 1] == all[..k] + [all[k]];
      keys := keys + {items[k].lines};
    }
    assert all[..|all|] == all;
  }

  method SectionKeys(section: Section) returns (keys: set<Key>)
    ensures keys == KeysIn(Categories(section.subsections))
  {
    keys := {};
    var subs := section.subsections;
    for j := 0 to |subs|
      invariant keys == SubsectionKeys(subs[..j])
    {
      var more := LineKeys(subs[j].lines);
      assert subs[..j + 1] == subs[..j] + [subs[j]];
      SubsectionKeysSnoc(subs[..j], subs[j]);
      keys := keys + more;
    }
    assert subs[..|subs|] == subs;
    KeysOfCategories(subs);
  }

  method MoreReleasedKeys(keys: set<Key>, section: Section, ghost before: seq<Release>, ghost after: seq<Release>)
    returns (more: set<Key>)
    requires Titled(section) && keys == ReleasedKeys(before) && after == before + [ReleaseOf(section)]
    ensures more == ReleasedKeys(after)
  {
    ReleasedKeysSnoc(before, ReleaseOf(section));
    more := keys;
    if section.title != "Unreleased" {
      var found := SectionKeys(section);
      more := keys + found;
    }
  }

  method CollectReleasedItemKeys(sections: seq<Section>) returns (keys: set<Key>)
    requires Numbering(sections)
    ensures keys == ReleasedKeys(Map(ReleaseOf, sections))
  {
    keys := {};
    ghost var releases := Map(ReleaseOf, sections);
    for i := 0 to |sections|
      invariant keys == ReleasedKeys(releases[..i])
    {
      SnocOf(releases, i);
      keys := MoreReleasedKeys(keys, sections[i], releases[..i], releases[..i + 1]);
    }
    assert releases[..|releases|] == releases;
  }

  lemma SnocOf<T>(s: seq<T>, i: nat)
    requires i < |s|
    ensures s[..i + 1] == s[..i] + [s[i]]
  {
  }

  // ---- dropping by line range ----

  lemma {:induction false} KeptOfSelected(items: seq<Item>, released: set<Key>, chosen: Item -> bool)
    requires forall item :: chosen(item) == (ItemKey(item) in released)
    ensures MapBlocks(TextOf, Select(items, Not(chosen))) == Kept(MapBlocks(TextOf, items), released)
  {
    if items != [] {
      KeptOfSelected(items[1..], released, chosen);
      KeyOfItem(items[0]);
      MappedCons(items[0], items[1..]);
      assert items == [items[0]] + items[1..];
      if !chosen(items[0]) { MappedCons(items[0], Select(items[1..], Not(chosen))); }
    }
  }

  lemma MappedCons(first: Item, rest: seq<Item>)
    ensures MapBlocks(TextOf, [first] + rest) == [MapBlock(TextOf, first)] + MapBlocks(TextOf, rest)
  {
  }

  /** What is left of the numbered lines reads as what is left of the texts. */
  lemma DropIsDropLines(lines: seq<NumberedLine>, released: set<Key>, chosen: Item -> bool)
    requires Rising(lines) && forall item :: chosen(item) == (ItemKey(item) in released)
    ensures var left := Without(lines, Map(ToParsed, Select(NumberedItemsOf(lines), chosen)));
      TrimBlank(Texts(left)) == DropLines(Texts(lines), released)
  {
    var c := Cut(OpensItem, lines);
    RemovalIsExact(lines, chosen);
    CutTexts(lines);
    KeptOfSelected(c.blocks, released, chosen);
    var kept := Select(c.blocks, Not(chosen));
    TextsOfUncut(kept);
    TextsJoin(c.lead, Uncut(kept));
  }

  lemma TextsJoin(a: seq<NumberedLine>, b: seq<NumberedLine>)
    ensures Texts(a + b) == Texts(a) + Texts(b)
  {
  }

  lemma {:induction false} KeptSnoc(items: seq<Block<string>>, last: Block<string>, released: set<Key>)
    ensures Kept(items + [last], released) == Kept(items, released) + if KeyOf(last) in released then [] else [last]
  {
    if items == [] {
      SnocEmpty(items, last);
    } else {
      SnocTail(items, last);
      KeptSnoc(items[1..], last, released);
      Assoc(if KeyOf(items[0]) in released then [] else [items[0]], Kept(items[1..], released),
            if KeyOf(last) in released then [] else [last]);
    }
  }

  lemma UncutSnoc(items: seq<Block<string>>, last: Block<string>)
    ensures Uncut(items + [last]) == Uncut(items) + Whole(last)
  {
    UncutJoin(items, [last]);
    assert Uncut([last]) == Whole(last);
  }

  lemma PaddedLast(front: seq<string>, last: Block<string>, b: seq<string>)
    requires AllBlank(b)
    ensures TrimBlank(front + Whole(Block(last.head, last.body + b))) == TrimBlank(front + Whole(last))
  {
    TrimPadded([], front + Whole(last), b);
    assert [] + (front + Whole(last)) + b == front + Whole(Block(last.head, last.body + b));
  }

  lemma KeptWithLast(lead: seq<string>, items: seq<Block<string>>, last: Block<string>, released: set<Key>)
    requires KeyOf(last) !in released
    ensures lead + Uncut(Kept(items + [last], released)) == (lead + Uncut(Kept(items, released))) + Whole(last)
  {
    KeptSnoc(items, last, released);
    UncutSnoc(Kept(items, released), last);
  }

  lemma DropPaddedAfter(lines: seq<string>, b: seq<string>, released: set<Key>)
    requires AllBlank(b)
    ensures DropLines(lines + b, released) == DropLines(lines, released)
  {
    var c := Cut(IsListItem, lines);
    BlankIsHeadless(b);
    CutAppend(IsListItem, lines, b);
    if c.blocks == [] {
      TrimPadded([], c.lead, b);
      assert [] + c.lead + b == c.lead + b;
      assert Uncut(Kept([], released)) == [];
      assert (c.lead + b) + [] == c.lead + b && c.lead + [] == c.lead;
    } else {
      var n := |c.blocks| - 1;
      PaddedItem(c.lead, c.blocks[..n], c.blocks[n], b, released);
      assert c.blocks == c.blocks[..n] + [c.blocks[n]];
    }
  }

  lemma PaddedItem(lead: seq<string>, items: seq<Block<string>>, last: Block<string>, b: seq<string>,
                   released: set<Key>)
    requires AllBlank(b)
    ensures TrimBlank(lead + Uncut(Kept(items + [Block(last.head, last.body + b)], released)))
              == TrimBlank(lead + Uncut(Kept(items + [last], released)))
  {
    var padded := Block(last.head, last.body + b);
    KeyPadded(last.head, last.body, b);
    if KeyOf(last) in released {
      KeptSnoc(items, last, released);
      KeptSnoc(items, padded, released);
    } else {
      KeptWithLast(lead, items, last, released);
      KeptWithLast(lead, items, padded, released);
      PaddedLast(lead + Uncut(Kept(items, released)), last, b);
    }
  }

  lemma PadIsFront<T>(a: seq<T>, b: seq<T>, c: seq<T>)
    ensures a + (b + c) + [] == (a + b) + c
  {
  }

  lemma DropPaddedBefore(a: seq<string>, lines: seq<string>, released: set<Key>)
    requires AllBlank(a)
    ensures DropLines(a + lines, released) == DropLines(lines, released)
  {
    var c := Cut(IsListItem, lines);
    BlankIsHeadless(a);
    CutHeadless(IsListItem, a, lines);
    var rest := Uncut(Kept(c.blocks, released));
    TrimPadded(a, c.lead + rest, []);
    PadIsFront(a, c.lead, rest);
  }

  lemma DropTrimmed(lines: seq<string>, released: set<Key>)
    ensures DropLines(TrimBlank(lines), released) == DropLines(lines, released)
  {
    var a, b := TrimSplit(lines);
    assert lines == a + (TrimBlank(lines) + b);
    DropPaddedBefore(a, TrimBlank(lines) + b, released);
    DropPaddedAfter(TrimBlank(lines), b, released);
  }

  /** `after` is `before` without the items that have a released key. */
  predicate Dropped(before: Subsection, after: Subsection, released: set<Key>) {
    after.title == before.title && TrimBlank(Texts(after.lines)) == DropLines(Texts(before.lines), released)
  }

  /** The categories of the remaining lines are the remaining categories. */
  lemma {:induction false} DropOfSubsections(before: seq<Subsection>, after: seq<Subsection>, released: set<Key>)
    requires |before| == |after|
    requires forall j :: 0 <= j < |before| ==> Dropped(before[j], after[j], released)
    ensures Categories(after) == DropCategories(Categories(before), released)
  {
    if before != [] {
      DropOfSubsections(before[1..], after[1..], released);
      DropTrimmed(Texts(before[0].lines), released);
      NothingToDrop(released);
      FirstToDrop(before[0].title, TrimBlank(Texts(before[0].lines)), Categories(before[1..]), released);
    }
  }

  lemma FirstToDrop(title: string, lines: seq<string>, rest: seq<Category>, released: set<Key>)
    requires DropLines([], released) == []
    ensures DropCategories((if lines == [] then [] else [Category(title, lines)]) + rest, released)
         == (if DropLines(lines, released) == [] then [] else [Category(title, DropLines(lines, released))])
            + DropCategories(rest, released)
  {
    if lines == [] { assert [] + rest == rest; } else { assert ([Category(title, lines)] + rest)[1..] == rest; }
  }

  lemma NothingToDrop(released: set<Key>)
    ensures DropLines([], released) == []
  {
    assert Cut(IsListItem, []) == Cuts([], []);
    assert [] + Uncut(Kept([], released)) == [];
  }

  method DropFromSubsection(sub: Subsection, released: set<Key>) returns (r: Subsection)
    requires Rising(sub.lines)
    ensures Dropped(sub, r, released) && Rising(r.lines) && forall l :: l in r.lines ==> l in sub.lines
  {
    var items := ParseItems(sub.lines);
    ghost var all := NumberedItemsOf(sub.lines);
    ghost var chosen := (item: Item) => ItemKey(item) in released;
    var duplicates: seq<ParsedItem> := [];
    for i := 0 to |items|
      invariant duplicates == Map(ToParsed, Select(all[..i], chosen))
    {
      SelectSnoc(all[..i], all[i], chosen);
      assert all[..i + 1] == all[..i] + [all[i]];
      if items[i].lines in released { duplicates := duplicates + [items[i]]; }
    }
    assert all[..|all|] == all;
    DropIsDropLines(sub.lines, released, chosen);
    WithoutRises(sub.lines, duplicates);
    r := Subsection(sub.title, Without(sub.lines, duplicates));
  }

  lemma {:induction false} SelectSnoc(items: seq<Item>, last: Item, chosen: Item -> bool)
    ensures Select(items + [last], chosen) == Select(items, chosen) + if chosen(last) then [last] else []
  {
    if items == [] {
      SnocEmpty(items, last);
    } else {
      SnocTail(items, last);
      SelectSnoc(items[1..], last, chosen);
      Assoc(if chosen(items[0]) then [items[0]] else [], Select(items[1..], chosen),
            if chosen(last) then [last] else []);
    }
  }

  method FindUnreleased(sections: seq<Section>) returns (i: nat)
    requires Numbering(sections)
    ensures i == FirstUnreleased(Map(ReleaseOf, sections)) <= |sections|
    ensures i < |sections| ==> sections[i].title == "Unreleased"
    ensures forall j :: 0 <= j < i ==> sections[j].title != "Unreleased"
  {
    i := 0;
    while i < |sections| && sections[i].title != "Unreleased"
      invariant i <= |sections| && forall j :: 0 <= j < i ==> sections[j].title != "Unreleased"
    {
      i := i + 1;
    }
    ghost var releases := Map(ReleaseOf, sections);
    assert forall j :: 0 <= j < |sections| ==> (Unreleased(releases[j]) <==> sections[j].title == "Unreleased");
  }

  /** The same title, and no line that was not there. */
  predicate Within(before: Subsection, after: Subsection) {
    after.title == before.title && forall l :: l in after.lines ==> l in before.lines
  }

  predicate DroppedSection(before: Section, after: Section) {
    && after.heading == before.heading && after.title == before.title && after.leading == before.leading
    && |after.subsections| == |before.subsections|
    && forall k :: 0 <= k < |before.subsections| ==> Within(before.subsections[k], after.subsections[k])
  }

  method DropFromSubsections(subs: seq<Subsection>, released: set<Key>) returns (left: seq<Subsection>)
    requires forall j :: 0 <= j < |subs| ==> Rising(subs[j].lines)
    ensures |left| == |subs|
    ensures forall k :: 0 <= k < |subs| ==> Dropped(subs[k], left[k], released) && Rising(left[k].lines)
    ensures forall k :: 0 <= k < |subs| ==> Within(subs[k], left[k])
  {
    left := [];
    for j := 0 to |subs|
      invariant |left| == j
      invariant forall k :: 0 <= k < j ==> Dropped(subs[k], left[k], released) && Rising(left[k].lines)
      invariant forall k :: 0 <= k < j ==> Within(subs[k], left[k])
    {
      var sub := DropFromSubsection(subs[j], released);
      left := left + [sub];
    }
  }

  lemma DropInSection(sections: seq<Section>, u: nat, left: seq<Subsection>, historical: set<Key>)
    requires u < |sections| && u == FirstUnreleased(Map(ReleaseOf, sections))
    requires Categories(left) == DropCategories(Categories(sections[u].subsections),
                                                ReleasedKeys(Map(ReleaseOf, sections)) + historical)
    ensures Map(ReleaseOf, sections[u := sections[u].(subsections := left)])
              == DropReleased(Map(ReleaseOf, sections), historical)
  {
    var r := sections[u := sections[u].(subsections := left)];
    assert Map(ReleaseOf, r) == Map(ReleaseOf, sections)[u := ReleaseOf(r[u])];
  }

  /** Only the first Unreleased section changes, and it loses exactly the items whose keys are released. */
  method DropUnreleasedDuplicates(sections: seq<Section>, historical: set<Key>) returns (r: seq<Section>)
    requires Numbering(sections)
    ensures Map(ReleaseOf, r) == DropReleased(Map(ReleaseOf, sections), historical)
    ensures Numbering(r) && |r| == |sections|
    ensures forall i :: 0 <= i < |sections| ==> DroppedSection(sections[i], r[i])
  {
    var u := FindUnreleased(sections);
    if u == |sections| {
      return sections;
    }
    var released := CollectReleasedItemKeys(sections);
    released := released + historical;
    var left := DropFromSubsections(sections[u].subsections, released);
    DropOfSubsections(sections[u].subsections, left, released);
    DropInSection(sections, u, left, historical);
    r := sections[u := sections[u].(subsections := left)];
    OnlyThere(sections, u, left);
  }

  lemma OnlyThere(sections: seq<Section>, u: nat, left: seq<Subsection>)
    requires Numbering(sections) && u < |sections| && |left| == |sections[u].subsections|
    requires forall k :: 0 <= k < |left| ==> Within(sections[u].subsections[k], left[k]) && Rising(left[k].lines)
    ensures var r := sections[u := sections[u].(subsections := left)];
      Numbering(r) && forall i :: 0 <= i < |sections| ==> DroppedSection(sections[i], r[i])
  {
  }
}
