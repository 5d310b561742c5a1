/** List items with their line numbers, and their removal by line range, which removes exactly those
    items wherever they stand. */
module NumberedItems {
  import opened ChangelogText
  import opened Cutting
  import opened ChangelogDocument
  import opened ChangelogItems

  type Item = Block<NumberedLine>

  predicate OpensItem(line: NumberedLine) { IsListItem(line.text) }

  function TextOf(line: NumberedLine): string { line.text }

  function NumberedItemsOf(lines: seq<NumberedLine>): seq<Item> { Cut(OpensItem, lines).blocks }

  function Start(item: Item): nat { item.head.number }

  function End(item: Item): nat { Whole(item)[|Whole(item)| - 1].number }

  function ItemKey(item: Item): Key { TrimBlank(Texts(Whole(item))) }

  datatype ParsedItem = ParsedItem(startLine: nat, endLine: nat, lines: seq<string>)

  function ToParsed(item: Item): ParsedItem { ParsedItem(Start(item), End(item), ItemKey(item)) }

  method ParseItems(lines: seq<NumberedLine>) returns (items: seq<ParsedItem>)
    ensures items == Map(ToParsed, NumberedItemsOf(lines))
  {
    var cuts := CutLines(OpensItem, lines);
    items := [];
    for i := 0 to |cuts.blocks|
      invariant items == Map(ToParsed, cuts.blocks)[..i]
    {
      var itemLines := Whole(cuts.blocks[i]);
      var trimmed := TrimBlankLines(Texts(itemLines));
      items := items + [ParsedItem(itemLines[0].number, itemLines[|itemLines| - 1].number, trimmed)];
    }
  }

  /** Line numbers ascend, as they do in a parsed file and in what is left of it. */
  predicate Rising(lines: seq<NumberedLine>) {
    forall i, j :: 0 <= i < j < |lines| ==> lines[i].number < lines[j].number
  }

  predicate InRange(items: seq<ParsedItem>, n: nat) {
    exists i :: 0 <= i < |items| && items[i].startLine <= n <= items[i].endLine
  }

  function Without(lines: seq<NumberedLine>, items: seq<ParsedItem>): seq<NumberedLine> {
    if lines == [] then []
    else (if InRange(items, lines[0].number) then [] else [lines[0]]) + Without(lines[1..], items)
  }

  function Select(items: seq<Item>, chosen: Item -> bool): seq<Item> {
    if items == [] then [] else (if chosen(items[0]) then [items[0]] else []) + Select(items[1..], chosen)
  }

  function Not(chosen: Item -> bool): Item -> bool { item => !chosen(item) }

  lemma {:induction false} SelectMembers(items: seq<Item>, chosen: Item -> bool)
    ensures forall b :: b in Select(items, chosen) <==> b in items && chosen(b)
    ensures GoodBlocks(OpensItem, items) ==> GoodBlocks(OpensItem, Select(items, chosen))
  {
    if items != [] {
      SelectMembers(items[1..], chosen);
      assert forall b :: b in items <==> b == items[0] || b in items[1..];
      if GoodBlocks(OpensItem, items) {
        assert GoodBlock(OpensItem, items[0]);
        assert GoodBlocks(OpensItem, items[1..]);
      }
    }
  }

  /** The lines of every item lie in its range, and in no other item's. */
  ghost predicate Ranged(items: seq<Item>) {
    && (forall b, l :: b in items && l in Whole(b) ==> Start(b) <= l.number <= End(b))
    && (forall i, j :: 0 <= i < j < |items| ==> End(items[i]) < Start(items[j]))
  }

  lemma RisingParts(a: seq<NumberedLine>, b: seq<NumberedLine>)
    requires Rising(a + b)
    ensures Rising(a) && Rising(b) && forall x, y :: x in a && y in b ==> x.number < y.number
  {
    var all := a + b;
    assert forall i :: 0 <= i < |a| ==> all[i] == a[i];
    assert forall i :: 0 <= i < |b| ==> all[|a| + i] == b[i];
    forall x, y | x in a && y in b ensures x.number < y.number {
      var i :| 0 <= i < |a| && a[i] == x;
      var j :| 0 <= j < |b| && b[j] == y;
      assert all[i].number < all[|a| + j].number;
    }
  }

  lemma WholeInRange(item: Item)
    requires Rising(Whole(item))
    ensures forall l :: l in Whole(item) ==> Start(item) <= l.number <= End(item)
  {
    var w := Whole(item);
    forall l | l in w ensures Start(item) <= l.number <= End(item) {
      var i :| 0 <= i < |w| && w[i] == l;
      assert w[0] == item.head;
      assert i == 0 || w[0].number < w[i].number;
      assert i == |w| - 1 || w[i].number < w[|w| - 1].number;
    }
  }

  lemma {:induction false} RisingIsRanged(items: seq<Item>)
    requires Rising(Uncut(items))
    ensures Ranged(items)
    ensures forall b :: b in items ==> b.head in Uncut(items) && Whole(b)[|Whole(b)| - 1] in Uncut(items)
  {
    if items != [] {
      var w, rest := Whole(items[0]), items[1..];
      RisingParts(w, Uncut(rest));
      RisingIsRanged(rest);
      WholeInRange(items[0]);
      assert forall b :: b in items <==> b == items[0] || b in rest;
      forall i, j | 0 <= i < j < |items| ensures End(items[i]) < Start(items[j]) {
        if i == 0 {
          assert items[j] == rest[j - 1] && items[j] in rest;
          assert w[|w| - 1] in w && items[j].head in Uncut(rest);
        } else {
          assert items[i] == rest[i - 1] && items[j] == rest[j - 1];
        }
      }
    }
  }

  lemma {:induction false} WithoutJoin(a: seq<NumberedLine>, b: seq<NumberedLine>, items: seq<ParsedItem>)
    ensures Without(a + b, items) == Without(a, items) + Without(b, items)
  {
    if a == [] {
      assert a + b == b;
    } else {
      assert (a + b)[1..] == a[1..] + b;
      WithoutJoin(a[1..], b, items);
    }
  }

  lemma {:induction false} WithoutAllOrNone(lines: seq<NumberedLine>, items: seq<ParsedItem>, gone: bool)
    requires forall l :: l in lines ==> InRange(items, l.number) == gone
    ensures Without(lines, items) == if gone then [] else lines
  {
    if lines != [] {
      assert lines[0] in lines;
      WithoutAllOrNone(lines[1..], items, gone);
    }
  }

  lemma {:induction false} WithoutItems(items: seq<Item>, ranges: seq<ParsedItem>, chosen: Item -> bool)
    requires forall b, l :: b in items && l in Whole(b) ==> InRange(ranges, l.number) == chosen(b)
    ensures Without(Uncut(items), ranges) == Uncut(Select(items, Not(chosen)))
  {
    if items != [] {
      var b := items[0];
      assert b in items && forall c :: c in items[1..] ==> c in items;
      WithoutItems(items[1..], ranges, chosen);
      WithoutJoin(Whole(b), Uncut(items[1..]), ranges);
      WithoutAllOrNone(Whole(b), ranges, chosen(b));
      var rest := Select(items[1..], Not(chosen));
      if chosen(b) {
        assert [] + rest == rest;
        assert [] + Uncut(rest) == Uncut(rest);
      } else {
        assert ([b] + rest)[1..] == rest;
      }
    }
  }

  lemma InRangeOf(picked: seq<Item>, n: nat)
    ensures InRange(Map(ToParsed, picked), n) <==>
            exists i :: 0 <= i < |picked| && Start(picked[i]) <= n <= End(picked[i])
  {
    var ranges := Map(ToParsed, picked);
    assert forall i :: 0 <= i < |picked| ==>
             ranges[i].startLine == Start(picked[i]) && ranges[i].endLine == End(picked[i]);
  }

  /** A line lies in the range of a chosen item exactly when it is a line of one. */
  lemma RangeIsMembership(items: seq<Item>, chosen: Item -> bool, b: Item, l: NumberedLine)
    requires Ranged(items) && b in items && l in Whole(b)
    ensures InRange(Map(ToParsed, Select(items, chosen)), l.number) == chosen(b)
  {
    var picked := Select(items, chosen);
    SelectMembers(items, chosen);
    InRangeOf(picked, l.number);
    assert Start(b) <= l.number <= End(b);
    if chosen(b) {
      var i :| 0 <= i < |picked| && picked[i] == b;
    } else {
      forall i | 0 <= i < |picked| ensures !(Start(picked[i]) <= l.number <= End(picked[i])) {
        assert picked[i] in picked;
        RangesApart(items, picked[i], b, l.number);
      }
    }
  }

  lemma RangesApart(items: seq<Item>, a: Item, b: Item, n: nat)
    requires Ranged(items) && a in items && b in items && a != b && Start(b) <= n <= End(b)
    ensures !(Start(a) <= n <= End(a))
  {
    var i :| 0 <= i < |items| && items[i] == a;
    var j :| 0 <= j < |items| && items[j] == b;
    assert if i < j then End(items[i]) < Start(items[j]) else End(items[j]) < Start(items[i]);
  }

  /** Removing the line ranges of some items removes exactly those items. */
  lemma RemovalIsExact(lines: seq<NumberedLine>, chosen: Item -> bool)
    requires Rising(lines)
    ensures var c := Cut(OpensItem, lines);
      var left := Without(lines, Map(ToParsed, Select(c.blocks, chosen)));
      left == c.lead + Uncut(Select(c.blocks, Not(chosen)))
        && Cut(OpensItem, left) == Cuts(c.lead, Select(c.blocks, Not(chosen)))
  {
    var c := Cut(OpensItem, lines);
    var ranges := Map(ToParsed, Select(c.blocks, chosen));
    CutWhole(OpensItem, lines);
    RisingParts(c.lead, Uncut(c.blocks));
    RisingIsRanged(c.blocks);
    forall b, l | b in c.blocks && l in Whole(b) ensures InRange(ranges, l.number) == chosen(b) {
      RangeIsMembership(c.blocks, chosen, b, l);
    }
    WithoutItems(c.blocks, ranges, chosen);
    forall l | l in c.lead ensures !InRange(ranges, l.number) { LeadOutside(c.lead, c.blocks, chosen, l); }
    WithoutAllOrNone(c.lead, ranges, false);
    WithoutJoin(c.lead, Uncut(c.blocks), ranges);
    SelectMembers(c.blocks, Not(chosen));
    CutUnique(OpensItem, c.lead, Select(c.blocks, Not(chosen)));
  }

  lemma LeadOutside(lead: seq<NumberedLine>, items: seq<Item>, chosen: Item -> bool, l: NumberedLine)
    requires Rising(lead + Uncut(items)) && l in lead
    ensures !InRange(Map(ToParsed, Select(items, chosen)), l.number)
  {
    RisingParts(lead, Uncut(items));
    RisingIsRanged(items);
    SelectMembers(items, chosen);
    var picked := Select(items, chosen);
    forall i | 0 <= i < |picked| ensures l.number < Start(picked[i]) {
      assert picked[i] in picked;
      assert picked[i].head in Uncut(items);
    }
  }

  lemma {:induction false} WithoutRises(lines: seq<NumberedLine>, items: seq<ParsedItem>)
    requires Rising(lines)
    ensures Rising(Without(lines, items)) && forall l :: l in Without(lines, items) ==> l in lines
  {
    if lines != [] {
      WithoutRises(lines[1..], items);
      var rest := Without(lines[1..], items);
      FirstIsLeast(lines);
      if !InRange(items, lines[0].number) { RisingCons(lines[0], rest); }
    }
  }

  lemma FirstIsLeast(lines: seq<NumberedLine>)
    requires Rising(lines) && lines != []
    ensures forall l :: l in lines[1..] ==> lines[0].number < l.number
  {
    forall l | l in lines[1..] ensures lines[0].number < l.number {
      var i :| 0 <= i < |lines| - 1 && lines[1..][i] == l;
      assert lines[i + 1] == l;
    }
  }

  lemma RisingCons(first: NumberedLine, rest: seq<NumberedLine>)
    requires Rising(rest) && forall l :: l in rest ==> first.number < l.number
    ensures Rising([first] + rest)
  {
    var all := [first] + rest;
    forall i, j | 0 <= i < j < |all| ensures all[i].number < all[j].number {
      if i == 0 { assert all[j] in rest; } else { assert all[i] == rest[i - 1] && all[j] == rest[j - 1]; }
    }
  }

  // ---- keys, with and without numbers ----

  lemma {:induction false} TextsOfUncut(items: seq<Item>)
    ensures Texts(Uncut(items)) == Uncut(MapBlocks(TextOf, items))
  {
    if items != [] {
      TextsOfUncut(items[1..]);
      assert MapBlocks(TextOf, items)[1..] == MapBlocks(TextOf, items[1..]);
      assert Texts(Whole(items[0])) == Whole(MapBlock(TextOf, items[0]));
      assert Texts(Uncut(items)) == Texts(Whole(items[0])) + Texts(Uncut(items[1..]));
    }
  }

  lemma KeyOfItem(item: Item)
    ensures ItemKey(item) == KeyOf(MapBlock(TextOf, item))
  {
    assert Texts(Whole(item)) == Whole(MapBlock(TextOf, item));
  }

  /** The items of the texts are the texts of the items. */
  lemma CutTexts(lines: seq<NumberedLine>)
    ensures var c := Cut(OpensItem, lines);
      Cut(IsListItem, Texts(lines)) == Cuts(Texts(c.lead), MapBlocks(TextOf, c.blocks))
    ensures Keys(Texts(lines)) == Map(ItemKey, NumberedItemsOf(lines))
  {
    CutMapped(TextOf, OpensItem, IsListItem, lines);
    assert Texts(lines) == Map(TextOf, lines);
    var items := NumberedItemsOf(lines);
    forall i | 0 <= i < |items| ensures KeyOf(MapBlock(TextOf, items[i])) == ItemKey(items[i]) { KeyOfItem(items[i]); }
  }
}
