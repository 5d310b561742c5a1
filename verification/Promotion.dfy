/** Moving promotable items from released sections into Unreleased: taking them out of one category and
    appending them to another. */
module Promotion {
  import opened ChangelogText
  import opened Cutting
  import opened ChangelogDocument
  import opened ChangelogItems
  import opened ChangelogPasses
  import opened NumberedItems
  import opened ReleasedDuplicates
  import opened Boards

  const UNRELEASED := "Unreleased"

  // ---- taking items out of a subsection ----

  function Promoted(promotable: set<nat>): Item -> bool { (item: Item) => Start(item) in promotable }

  predicate InItems(items: seq<ParsedItem>, t: string) {
    exists k :: 0 <= k < |items| && t in items[k].lines
  }

  /** A category without its promotable items: the lines before the first item, and the other items whole. */
  function LeftOf(sub: Subsection, promotable: set<nat>): Subsection {
    var c := Cut(OpensItem, sub.lines);
    Subsection(sub.title, c.lead + Uncut(Select(c.blocks, Not(Promoted(promotable)))))
  }

  function PickedOf(sub: Subsection, promotable: set<nat>): seq<ParsedItem> {
    Map(ToParsed, Select(NumberedItemsOf(sub.lines), Promoted(promotable)))
  }

  /** `left` and `items` are `sub` taken apart. */
  ghost predicate Taken(sub: Subsection, left: Subsection, items: seq<ParsedItem>, promotable: set<nat>) {
    && left == LeftOf(sub, promotable) && items == PickedOf(sub, promotable)
    && left.title == sub.title && Rising(left.lines) && (forall l :: l in left.lines ==> l in sub.lines)
    && NumberedItemsOf(left.lines) == Select(NumberedItemsOf(sub.lines), Not(Promoted(promotable)))
    && items == Map(ToParsed, Select(NumberedItemsOf(sub.lines), Promoted(promotable)))
    && (forall t :: !Blank(t) ==> (t in Texts(sub.lines) <==> t in Texts(left.lines) || InItems(items, t)))
  }

  method TakeItems(sub: Subsection, promotable: set<nat>) returns (left: Subsection, items: seq<ParsedItem>)
    requires Rising(sub.lines)
    ensures Taken(sub, left, items, promotable)
  {
    var all := ParseItems(sub.lines);
    ghost var blocks := NumberedItemsOf(sub.lines);
    ghost var chosen := Promoted(promotable);
    items := [];
    for i := 0 to |all|
      invariant items == Map(ToParsed, Select(blocks[..i], chosen))
    {
      SelectSnoc(blocks[..i], blocks[i], chosen);
      assert blocks[..i + 1] == blocks[..i] + [blocks[i]];
      if all[i].startLine in promotable { items := items + [all[i]]; }
    }
    assert blocks[..|blocks|] == blocks;
    RemovalIsExact(sub.lines, chosen);
    WithoutRises(sub.lines, items);
    left := Subsection(sub.title, Without(sub.lines, items));
    TakenTexts(sub.lines, chosen);
  }

  lemma TextsMember(lines: seq<NumberedLine>, t: string)
    ensures t in Texts(lines) <==> exists l :: l in lines && l.text == t
  {
    var texts := Texts(lines);
    if t in texts {
      var i :| 0 <= i < |texts| && texts[i] == t;
      assert lines[i] in lines;
    }
    if l :| l in lines && l.text == t {
      var i :| 0 <= i < |lines| && lines[i] == l;
      assert texts[i] == t;
    }
  }

  lemma {:induction false} UncutTexts(items: seq<Item>, chosen: Item -> bool, t: string)
    requires !Blank(t)
    ensures t in Texts(Uncut(items)) <==>
            t in Texts(Uncut(Select(items, Not(chosen)))) || InItems(Map(ToParsed, Select(items, chosen)), t)
  {
    if items != [] {
      var b, rest := items[0], items[1..];
      UncutTexts(rest, chosen, t);
      TextsJoin(Whole(b), Uncut(rest));
      var others, picked := Select(rest, Not(chosen)), Select(rest, chosen);
      TrimMembers(Texts(Whole(b)));
      if chosen(b) {
        assert [] + others == others;
        InItemsCons(b, picked, t);
      } else {
        assert ([b] + others)[1..] == others;
        TextsJoin(Whole(b), Uncut(others));
        assert [] + picked == picked;
      }
    }
  }

  lemma InFirstOrRest(first: ParsedItem, rest: seq<ParsedItem>, t: string)
    ensures InItems([first] + rest, t) <==> t in first.lines || InItems(rest, t)
  {
    var all := [first] + rest;
    assert all[0] == first;
    if InItems(rest, t) {
      var k :| 0 <= k < |rest| && t in rest[k].lines;
      assert all[k + 1] == rest[k];
    }
  }

  lemma InItemsCons(b: Item, picked: seq<Item>, t: string)
    ensures InItems(Map(ToParsed, [b] + picked), t) <==> t in ItemKey(b) || InItems(Map(ToParsed, picked), t)
  {
    var rest := Map(ToParsed, picked);
    assert Map(ToParsed, [b] + picked) == [ToParsed(b)] + rest;
    InFirstOrRest(ToParsed(b), rest, t);
  }

  lemma TakenTexts(lines: seq<NumberedLine>, chosen: Item -> bool)
    requires Rising(lines)
    ensures var all := NumberedItemsOf(lines);
      var items := Map(ToParsed, Select(all, chosen));
      forall t :: !Blank(t) ==> (t in Texts(lines) <==> t in Texts(Without(lines, items)) || InItems(items, t))
  {
    var c := Cut(OpensItem, lines);
    CutWhole(OpensItem, lines);
    RemovalIsExact(lines, chosen);
    TextsJoin(c.lead, Uncut(c.blocks));
    TextsJoin(c.lead, Uncut(Select(c.blocks, Not(chosen))));
    var items := Map(ToParsed, Select(c.blocks, chosen));
    forall t | !Blank(t) ensures t in Texts(lines) <==> t in Texts(Without(lines, items)) || InItems(items, t) {
      UncutTexts(c.blocks, chosen, t);
    }
  }

  // ---- putting items into a subsection ----

  function Synthetic(texts: seq<string>): (r: seq<NumberedLine>)
    ensures Texts(r) == texts
  {
    var r := seq(|texts|, i requires 0 <= i < |texts| => NumberedLine(texts[i], 0));
    assert Texts(r) == texts;
    r
  }

  method AppendSubsectionLines(target: Subsection, source: seq<string>) returns (r: Subsection)
    ensures r.title == target.title && Texts(r.lines) == Append(Texts(target.lines), source)
  {
    var trimmed := TrimBlankLines(source);
    if trimmed == [] { return target; }
    var existing := TrimBlankLines(Texts(target.lines));
    if existing == [] { return Subsection(target.title, Synthetic(trimmed)); }
    var separator := Separator(existing[|existing| - 1], trimmed[0]);
    r := Subsection(target.title, Synthetic(existing + separator + trimmed));
  }

  lemma OneKey(key: Key)
    requires GoodKey(key)
    ensures Cut(IsListItem, key).lead == [] && Keys(key) == [key] && TrimBlank(key) == key
  {
    KeysOfFlatten([key]);
    assert Flatten([key]) == key + Flatten([]) == key;
    TrimIdentity(key);
  }

  /** Appending an item adds that item and changes no other. */
  lemma AppendAddsKey(existing: seq<string>, key: Key)
    requires GoodKey(key)
    ensures Keys(Append(existing, key)) == Keys(existing) + [key]
  {
    var e := TrimBlank(existing);
    OneKey(key);
    KeysTrimmed(existing);
    if e == [] {
      assert Keys(existing) == [];
    } else {
      var sep := Separator(e[|e| - 1], key[0]);
      assert AllBlank(sep);
      KeysPaddedAfter(e, sep);
      KeysConcat(e + sep, key);
    }
  }

  lemma AppendTexts(existing: seq<string>, source: seq<string>, t: string)
    requires !Blank(t)
    ensures t in Append(existing, source) <==> t in existing || t in source
  {
    TrimMembers(existing);
    TrimMembers(source);
  }

  method SubsectionHasItem(sub: Subsection, wanted: Key) returns (found: bool)
    requires wanted != []
    ensures found <==> wanted in Keys(Texts(sub.lines))
  {
    var items := ParseItems(sub.lines);
    CutTexts(sub.lines);
    ghost var keys := Keys(Texts(sub.lines));
    found := false;
    for i := 0 to |items|
      invariant !found && wanted !in keys[..i]
    {
      assert keys[i] == items[i].lines;
      assert keys[..i + 1] == keys[..i] + [keys[i]];
      if items[i].lines == wanted {
        found := true;
        return;
      }
    }
    assert keys[..|keys|] == keys;
  }

  predicate IsKeyOf(items: seq<ParsedItem>, k: Key) {
    exists i :: 0 <= i < |items| && items[i].lines == k
  }

  function KeysOfItems(items: seq<ParsedItem>): (r: seq<Key>)
    ensures |r| == |items| && forall i :: 0 <= i < |r| ==> r[i] == items[i].lines
  {
    seq(|items|, i requires 0 <= i < |items| => items[i].lines)
  }

  /** `filled` is `target` with every item it did not have yet, once and in order. */
  ghost predicate Filled(target: Subsection, filled: Subsection, items: seq<ParsedItem>) {
    && filled.title == target.title
    && Gains(Keys(Texts(target.lines)), KeysOfItems(items), Keys(Texts(filled.lines)))
    && (forall k :: k in Keys(Texts(filled.lines)) <==> k in Keys(Texts(target.lines)) || IsKeyOf(items, k))
    && (forall t :: !Blank(t) ==> (t in Texts(filled.lines) <==> t in Texts(target.lines) || InItems(items, t)))
    && (forall t :: t in Texts(filled.lines) ==> t in Texts(target.lines) || InItems(items, t) || t == "")
  }

  lemma KeyTexts(lines: seq<string>, key: Key, t: string)
    requires key in Keys(lines) && t in key
    ensures t in lines
  {
    var i :| 0 <= i < |Keys(lines)| && Keys(lines)[i] == key;
    KeyFrom(lines, i, t);
  }

  /** One more item, put or found there already. */
  lemma FilledSnoc(target: Subsection, sub: Subsection, more: Subsection, items: seq<ParsedItem>, item: ParsedItem)
    requires Filled(target, sub, items) && more.title == sub.title && GoodKey(item.lines)
    requires if item.lines in Keys(Texts(sub.lines)) then more == sub
             else Texts(more.lines) == Append(Texts(sub.lines), item.lines)
    ensures Filled(target, more, items + [item])
  {
    var all := items + [item];
    FilledGains(target, sub, more, items, item);
    forall k ensures IsKeyOf(all, k) <==> IsKeyOf(items, k) || k == item.lines { IsKeySnoc(items, item, k); }
    forall t ensures InItems(all, t) <==> InItems(items, t) || t in item.lines { InItemsSnoc(items, item, t); }
    if item.lines in Keys(Texts(sub.lines)) {
      forall t | t in item.lines ensures t in Texts(sub.lines) { KeyTexts(Texts(sub.lines), item.lines, t); }
    } else {
      AppendAddsKey(Texts(sub.lines), item.lines);
      AppendFrom(Texts(sub.lines), item.lines);
      forall t | !Blank(t) ensures t in Texts(more.lines) <==> t in Texts(sub.lines) || t in item.lines {
        AppendTexts(Texts(sub.lines), item.lines, t);
      }
    }
  }

  lemma FilledGains(target: Subsection, sub: Subsection, more: Subsection, items: seq<ParsedItem>, item: ParsedItem)
    requires Filled(target, sub, items) && GoodKey(item.lines)
    requires if item.lines in Keys(Texts(sub.lines)) then more == sub
             else Texts(more.lines) == Append(Texts(sub.lines), item.lines)
    ensures Gains(Keys(Texts(target.lines)), KeysOfItems(items + [item]), Keys(Texts(more.lines)))
  {
    assert KeysOfItems(items + [item]) == KeysOfItems(items) + [item.lines];
    AppendAddsKey(Texts(sub.lines), item.lines);
    GainsOne(Keys(Texts(target.lines)), KeysOfItems(items), Keys(Texts(sub.lines)), item.lines,
             Keys(Texts(more.lines)));
  }

  lemma IsKeySnoc(items: seq<ParsedItem>, item: ParsedItem, k: Key)
    ensures IsKeyOf(items + [item], k) <==> IsKeyOf(items, k) || k == item.lines
  {
    var all := items + [item];
    assert all[|items|] == item;
    if IsKeyOf(items, k) {
      var i :| 0 <= i < |items| && items[i].lines == k;
      assert all[i] == items[i];
    }
  }

  lemma InItemsSnoc(items: seq<ParsedItem>, item: ParsedItem, t: string)
    ensures InItems(items + [item], t) <==> InItems(items, t) || t in item.lines
  {
    var all := items + [item];
    assert all[|items|] == item;
    if InItems(items, t) {
      var i :| 0 <= i < |items| && t in items[i].lines;
      assert all[i] == items[i];
    }
  }

  method PutItem(ghost target: Subsection, sub: Subsection, ghost items: seq<ParsedItem>, item: ParsedItem)
    returns (more: Subsection)
    requires Filled(target, sub, items) && GoodKey(item.lines)
    ensures Filled(target, more, items + [item])
  {
    more := sub;
    var found := SubsectionHasItem(sub, item.lines);
    if !found { more := AppendSubsectionLines(sub, item.lines); }
    FilledSnoc(target, sub, more, items, item);
  }

  method PutItems(target: Subsection, items: seq<ParsedItem>) returns (r: Subsection)
    requires forall i :: 0 <= i < |items| ==> GoodKey(items[i].lines)
    ensures Filled(target, r, items)
  {
    r := target;
    GainsNothing(Keys(Texts(target.lines)));
    assert KeysOfItems(items[..0]) == [];
    for i := 0 to |items|
      invariant Filled(target, r, items[..i])
    {
      r := PutItem(target, r, items[..i], items[i]);
      assert items[..i + 1] == items[..i] + [items[i]];
    }
    assert items[..|items|] == items;
  }

  lemma ItemKeyIsGood(lines: seq<NumberedLine>, b: Item)
    requires b in NumberedItemsOf(lines)
    ensures GoodKey(ItemKey(b)) && ItemKey(b) in Keys(Texts(lines))
  {
    var items := NumberedItemsOf(lines);
    var i :| 0 <= i < |items| && items[i] == b;
    CutTexts(lines);
    KeysAreGood(Texts(lines));
    assert Keys(Texts(lines))[i] == ItemKey(b);
  }
}
