/** List items inside a category: their keys, their spacing, and what becomes of both when lines are
    appended after them. */
module ChangelogItems {
  import opened ChangelogText
  import opened Cutting
  import opened ChangelogDocument

  type Key = seq<string>

  /** What identifies an item: its lines without blank padding. */
  function KeyOf(item: Block<string>): Key { TrimBlank(Whole(item)) }

  function ItemsOf(lines: seq<string>): seq<Block<string>> { Cut(IsListItem, lines).blocks }

  function Keys(lines: seq<string>): (r: seq<Key>)
    ensures |r| == |ItemsOf(lines)|
  {
    Map(KeyOf, ItemsOf(lines))
  }

  function Flatten(keys: seq<Key>): seq<string> {
    if keys == [] then [] else keys[0] + Flatten(keys[1..])
  }

  function NonBlank(lines: seq<string>): seq<string> {
    if lines == [] then [] else (if Blank(lines[0]) then [] else [lines[0]]) + NonBlank(lines[1..])
  }

  /** Blank lines between items go, unless something other than items would be lost. */
  function Compact(lines: seq<string>): seq<string> {
    var trimmed := TrimBlank(lines);
    var flat := Flatten(Keys(trimmed));
    if ItemsOf(trimmed) == [] || NonBlank(trimmed) != NonBlank(flat) then trimmed else flat
  }

  method CompactAdjacentListSpacing(lines: seq<string>) returns (r: seq<string>)
    ensures r == Compact(lines)
  {
    var trimmed := TrimBlankLines(lines);
    if trimmed == [] { return trimmed; }
    var cuts := CutLines(IsListItem, trimmed);
    if cuts.blocks == [] { return trimmed; }
    var flat: seq<string> := [];
    ghost var keys := Keys(trimmed);
    for i := 0 to |cuts.blocks|
      invariant flat == Flatten(keys[..i])
    {
      var item := TrimBlankLines(Whole(cuts.blocks[i]));
      FlattenSnoc(keys[..i], keys[i]);
      assert keys[..i + 1] == keys[..i] + [keys[i]];
      flat := flat + item;
    }
    assert keys[..|keys|] == keys;
    r := if NonBlank(trimmed) != NonBlank(flat) then trimmed else flat;
  }

  function Separator(last: string, first: string): seq<string> {
    if IsListItem(last) && IsListItem(first) then [] else [""]
  }

  /** Lines put after what a category holds, one blank line apart unless both sides are list items. */
  function Append(existing: seq<string>, source: seq<string>): seq<string> {
    var e, s := TrimBlank(existing), TrimBlank(source);
    if s == [] then existing else if e == [] then s else e + Separator(e[|e| - 1], s[0]) + s
  }

  lemma {:induction false} FlattenSnoc(keys: seq<Key>, key: Key)
    ensures Flatten(keys + [key]) == Flatten(keys) + key
  {
    if keys == [] {
      SnocEmpty(keys, key);
    } else {
      SnocTail(keys, key);
      FlattenSnoc(keys[1..], key);
    }
  }

  // ---- keys under padding ----

  /** A cut whose last part is followed by headless lines. */
  function Extended<L>(c: Cuts<L>, b: seq<L>): Cuts<L> {
    if c.blocks == [] then Cuts(c.lead + b, [])
    else
      var n := |c.blocks| - 1;
      Cuts(c.lead, c.blocks[..n] + [Block(c.blocks[n].head, c.blocks[n].body + b)])
  }

  lemma ExtendedBlock<L>(c: Cuts<L>, b: seq<L>, head: L)
    ensures Extended(Cuts([], [Block(head, c.lead)] + c.blocks), b)
              == Cuts([], [Block(head, Extended(c, b).lead)] + Extended(c, b).blocks)
  {
    var all := [Block(head, c.lead)] + c.blocks;
    if c.blocks == [] {
      assert all[..0] == [] && all[0] == Block(head, c.lead);
    } else {
      var n := |c.blocks| - 1;
      assert all[..n + 1] == [Block(head, c.lead)] + c.blocks[..n] && all[n + 1] == c.blocks[n];
    }
  }

  lemma ExtendedLead<L>(c: Cuts<L>, b: seq<L>, line: L)
    ensures Extended(Cuts([line] + c.lead, c.blocks), b) == Cuts([line] + Extended(c, b).lead, Extended(c, b).blocks)
  {
    assert ([line] + c.lead) + b == [line] + (c.lead + b);
  }

  lemma {:induction false} CutAppend<L>(isHead: L -> bool, lines: seq<L>, b: seq<L>)
    requires Headless(isHead, b)
    ensures Cut(isHead, lines + b) == Extended(Cut(isHead, lines), b)
  {
    if lines == [] {
      assert lines + b == b && b + [] == b;
      CutHeadless(isHead, b, []);
    } else {
      var rest := Cut(isHead, lines[1..]);
      assert (lines + b)[1..] == lines[1..] + b;
      CutAppend(isHead, lines[1..], b);
      if isHead(lines[0]) { ExtendedBlock(rest, b, lines[0]); } else { ExtendedLead(rest, b, lines[0]); }
    }
  }

  lemma BlankIsHeadless(b: seq<string>)
    requires AllBlank(b)
    ensures Headless(IsListItem, b)
  {
    forall i | 0 <= i < |b| ensures !IsListItem(b[i]) {
      if IsListItem(b[i]) { ListItemIsNotBlank(b[i]); }
    }
  }

  lemma KeyPadded(head: string, body: seq<string>, b: seq<string>)
    requires AllBlank(b)
    ensures KeyOf(Block(head, body + b)) == KeyOf(Block(head, body))
  {
    TrimPadded([], [head] + body, b);
    assert [] + ([head] + body) + b == [head] + (body + b);
  }

  lemma KeysPaddedAfter(lines: seq<string>, b: seq<string>)
    requires AllBlank(b)
    ensures Keys(lines + b) == Keys(lines)
  {
    BlankIsHeadless(b);
    CutAppend(IsListItem, lines, b);
    var blocks := ItemsOf(lines);
    if blocks != [] {
      var n := |blocks| - 1;
      KeyPadded(blocks[n].head, blocks[n].body, b);
    }
  }

  lemma KeysHeadless(a: seq<string>, lines: seq<string>)
    requires Headless(IsListItem, a)
    ensures Keys(a + lines) == Keys(lines)
  {
    CutHeadless(IsListItem, a, lines);
  }

  lemma {:induction false} CutConcat(x: seq<string>, y: seq<string>)
    requires Cut(IsListItem, y).lead == []
    ensures Cut(IsListItem, x + y) == Cuts(Cut(IsListItem, x).lead, ItemsOf(x) + ItemsOf(y))
  {
    if x == [] {
      assert x + y == y;
    } else {
      assert (x + y)[1..] == x[1..] + y;
      CutConcat(x[1..], y);
    }
  }

  lemma KeysConcat(x: seq<string>, y: seq<string>)
    requires Cut(IsListItem, y).lead == []
    ensures Keys(x + y) == Keys(x) + Keys(y)
  {
    CutConcat(x, y);
  }

  /** Blank padding around the lines is not part of any item. */
  lemma KeysTrimmed(lines: seq<string>)
    ensures Keys(TrimBlank(lines)) == Keys(lines)
  {
    var a, b := TrimSplit(lines);
    BlankIsHeadless(a);
    assert lines == a + (TrimBlank(lines) + b);
    KeysHeadless(a, TrimBlank(lines) + b);
    KeysPaddedAfter(TrimBlank(lines), b);
  }

  // ---- keys as blocks ----

  function KeyBlock(key: Key): Block<string>
    requires key != []
  {
    Block(key[0], key[1..])
  }

  /** A key starts with the item's own line, and no other line of it starts an item. */
  predicate GoodKey(key: Key) {
    key != [] && Trimmed(key) && IsListItem(key[0]) && Headless(IsListItem, key[1..])
  }

  lemma KeyIsGood(b: Block<string>)
    requires GoodBlock(IsListItem, b)
    ensures GoodKey(KeyOf(b)) && KeyOf(b)[0] == b.head
  {
    var all := Whole(b);
    var pad, pad' := TrimSplit(all);
    ListItemIsNotBlank(b.head);
    assert all[0] == b.head;
    var key := KeyOf(b);
    assert b.head in all && !Blank(b.head);
    TrimMembers(all);
    assert key != [];
    assert all == key + pad';
    forall i | 0 <= i < |key| - 1 ensures !IsListItem(key[1..][i]) {
      assert key[1..][i] == all[i + 1] == b.body[i];
    }
  }

  predicate GoodKeys(keys: seq<Key>) {
    forall i :: 0 <= i < |keys| ==> GoodKey(keys[i])
  }

  lemma KeysAreGood(lines: seq<string>)
    ensures GoodKeys(Keys(lines))
  {
    CutWhole(IsListItem, lines);
    forall i | 0 <= i < |Keys(lines)| ensures GoodKey(Keys(lines)[i]) {
      KeyIsGood(ItemsOf(lines)[i]);
    }
  }

  function KeyBlocks(keys: seq<Key>): (r: seq<Block<string>>)
    requires GoodKeys(keys)
    ensures |r| == |keys| && forall i :: 0 <= i < |keys| ==> r[i] == KeyBlock(keys[i])
  {
    seq(|keys|, i requires 0 <= i < |keys| => KeyBlock(keys[i]))
  }

  lemma {:induction false} FlattenIsUncut(keys: seq<Key>)
    requires GoodKeys(keys)
    ensures Flatten(keys) == Uncut(KeyBlocks(keys))
  {
    if keys != [] {
      assert GoodKey(keys[0]);
      assert Whole(KeyBlock(keys[0])) == keys[0];
      FlattenIsUncut(keys[1..]);
      assert KeyBlocks(keys)[1..] == KeyBlocks(keys[1..]);
    }
  }

  /** Items written one after the other are read back as the same items. */
  lemma KeysOfFlatten(keys: seq<Key>)
    requires GoodKeys(keys)
    ensures Cut(IsListItem, Flatten(keys)) == Cuts([], KeyBlocks(keys)) && Keys(Flatten(keys)) == keys
  {
    FlattenIsUncut(keys);
    var blocks := KeyBlocks(keys);
    forall i | 0 <= i < |blocks| ensures GoodBlock(IsListItem, blocks[i]) && KeyOf(blocks[i]) == keys[i] {
      assert GoodKey(keys[i]);
      KeyOfKeyBlock(keys[i]);
    }
    CutUnique(IsListItem, [], blocks);
    assert [] + Uncut(blocks) == Uncut(blocks);
    assert Map(KeyOf, blocks) == keys;
  }

  lemma KeyOfKeyBlock(key: Key)
    requires GoodKey(key)
    ensures GoodBlock(IsListItem, KeyBlock(key)) && KeyOf(KeyBlock(key)) == key
  {
    assert Whole(KeyBlock(key)) == key;
    TrimUnique([], key, []);
    assert [] + key + [] == key;
  }

  function Last<T>(s: seq<T>): T
    requires s != []
  {
    s[|s| - 1]
  }

  lemma LastOfJoin(a: seq<string>, b: seq<string>)
    requires b != []
    ensures a + b != [] && Last(a + b) == Last(b)
  {
  }

  lemma {:induction false} FlattenEnds(keys: seq<Key>)
    requires GoodKeys(keys) && keys != []
    ensures Flatten(keys) != [] && Flatten(keys)[0] == keys[0][0] && Last(keys) != []
            && Last(Flatten(keys)) == Last(Last(keys))
  {
    assert GoodKey(keys[0]) && GoodKey(Last(keys));
    if |keys| == 1 {
      assert keys[1..] == [] && keys[0] + [] == keys[0];
    } else {
      FlattenEnds(keys[1..]);
      LastOfJoin(keys[0], Flatten(keys[1..]));
      assert Last(keys[1..]) == Last(keys);
    }
  }

  lemma FlattenTrimmed(keys: seq<Key>)
    requires GoodKeys(keys) && keys != []
    ensures Trimmed(Flatten(keys))
  {
    FlattenEnds(keys);
    assert GoodKey(keys[0]) && GoodKey(Last(keys));
    ListItemIsNotBlank(keys[0][0]);
  }

  // ---- spacing ----

  lemma {:induction false} NonBlankJoin(a: seq<string>, b: seq<string>)
    ensures NonBlank(a + b) == NonBlank(a) + NonBlank(b)
  {
    if a == [] {
      assert a + b == b;
    } else {
      assert (a + b)[1..] == a[1..] + b;
      NonBlankJoin(a[1..], b);
    }
  }

  lemma {:induction false} NonBlankOfBlank(a: seq<string>)
    ensures NonBlank(a) == [] <==> AllBlank(a)
  {
    if a != [] {
      NonBlankOfBlank(a[1..]);
      if AllBlank(a[1..]) && Blank(a[0]) {
        forall i | 0 <= i < |a| ensures Blank(a[i]) { if i > 0 { assert a[i] == a[1..][i - 1]; } }
      }
    }
  }

  lemma NonBlankTrimmed(lines: seq<string>)
    ensures NonBlank(TrimBlank(lines)) == NonBlank(lines)
  {
    var a, b := TrimSplit(lines);
    NonBlankOfBlank(a);
    NonBlankOfBlank(b);
    NonBlankJoin(a + TrimBlank(lines), b);
    NonBlankJoin(a, TrimBlank(lines));
  }

  lemma {:induction false} NonBlankItems(blocks: seq<Block<string>>)
    ensures NonBlank(Flatten(Map(KeyOf, blocks))) == NonBlank(Uncut(blocks))
  {
    if blocks != [] {
      var b := blocks[0];
      NonBlankItems(blocks[1..]);
      assert Map(KeyOf, blocks)[1..] == Map(KeyOf, blocks[1..]);
      NonBlankJoin(KeyOf(b), Flatten(Map(KeyOf, blocks[1..])));
      NonBlankJoin(Whole(b), Uncut(blocks[1..]));
      NonBlankTrimmed(Whole(b));
    }
  }

  /** Spacing is compacted exactly when nothing stands in front of the first item. */
  lemma CompactIs(lines: seq<string>)
    ensures var t := TrimBlank(lines);
      Compact(lines) == if Cut(IsListItem, t).lead == [] then Flatten(Keys(t)) else t
  {
    var t := TrimBlank(lines);
    var c := Cut(IsListItem, t);
    TrimMembers(lines);
    CutWhole(IsListItem, t);
    NonBlankItems(c.blocks);
    NonBlankJoin(c.lead, Uncut(c.blocks));
    NonBlankOfBlank(c.lead);
    if c.lead != [] {
      assert t[0] == c.lead[0];
      assert !AllBlank(c.lead);
      assert |NonBlank(t)| > |NonBlank(Uncut(c.blocks))|;
    } else if c.blocks == [] {
      assert t == [] + Uncut(c.blocks);
    }
  }

  lemma FlatNonBlank(t: seq<string>)
    requires Cut(IsListItem, t).lead == []
    ensures NonBlank(Flatten(Keys(t))) == NonBlank(t)
  {
    var c := Cut(IsListItem, t);
    CutWhole(IsListItem, t);
    NonBlankItems(c.blocks);
    assert t == [] + Uncut(c.blocks) == Uncut(c.blocks);
  }

  /** What flattening the items of trimmed lines gives, when nothing stands in front of the first item. */
  lemma FlatFacts(t: seq<string>)
    requires Cut(IsListItem, t).lead == []
    ensures var r := Flatten(Keys(t));
      Keys(r) == Keys(t) && Cut(IsListItem, r).lead == [] && NonBlank(r) == NonBlank(t) && Trimmed(r)
        && TrimBlank(r) == r
  {
    var keys := Keys(t);
    var r := Flatten(keys);
    KeysAreGood(t);
    KeysOfFlatten(keys);
    FlatNonBlank(t);
    if keys != [] { FlattenTrimmed(keys); }
    assert Trimmed(r);
    TrimUnique([], r, []);
    assert [] + r + [] == r;
  }

  /** Compacting keeps the items and every line of text, and needs doing only once. */
  lemma CompactFacts(lines: seq<string>)
    ensures Keys(Compact(lines)) == Keys(lines)
    ensures Compact(Compact(lines)) == Compact(lines)
    ensures Trimmed(Compact(lines)) && (Compact(lines) == [] <==> TrimBlank(lines) == [])
    ensures NonBlank(Compact(lines)) == NonBlank(lines)
  {
    var t := TrimBlank(lines);
    CompactIs(lines);
    CompactIs(Compact(lines));
    TrimMembers(lines);
    KeysTrimmed(lines);
    NonBlankTrimmed(lines);
    if Cut(IsListItem, t).lead == [] {
      FlatFacts(t);
      EmptyIfNoText(t, Flatten(Keys(t)));
    }
  }

  lemma EmptyIfNoText(t: seq<string>, r: seq<string>)
    requires Trimmed(t) && Trimmed(r) && NonBlank(t) == NonBlank(r)
    ensures t == [] <==> r == []
  {
    NonBlankOfBlank(t);
    NonBlankOfBlank(r);
  }
}
