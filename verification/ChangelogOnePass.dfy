/** When one pass of the fixer is enough: exactly when merging leaves no blank line in front of an item, and
    makes no unreleased item a duplicate. */
module ChangelogOnePass {
  import opened ChangelogText
  import opened Cutting
  import opened ChangelogDocument
  import opened ChangelogItems
  import opened ChangelogFix
  import opened ChangelogConverge
  import opened ChangelogPasses
  import opened Sorting

  // ---- lines whose spacing is not compact ----

  /** A blank line stands right in front of an item. */
  predicate Loose(lines: seq<string>) {
    exists k :: 0 < k < |lines| && Blank(lines[k - 1]) && IsListItem(lines[k])
  }

  lemma LooseJoin(a: seq<string>, b: seq<string>)
    requires a != [] && b != []
    ensures Loose(a + b) <==> Loose(a) || Loose(b) || (Blank(Last(a)) && IsListItem(b[0]))
  {
    var all := a + b;
    if k :| 0 < k < |all| && Blank(all[k - 1]) && IsListItem(all[k]) {
      if k > |a| { assert b[k - |a| - 1] == all[k - 1] && b[k - |a|] == all[k]; }
    }
    if k :| 0 < k < |a| && Blank(a[k - 1]) && IsListItem(a[k]) { assert all[k - 1] == a[k - 1] && all[k] == a[k]; }
    if k :| 0 < k < |b| && Blank(b[k - 1]) && IsListItem(b[k]) {
      assert all[|a| + k - 1] == b[k - 1] && all[|a| + k] == b[k];
    }
    if Blank(Last(a)) && IsListItem(b[0]) { assert all[|a| - 1] == Last(a) && all[|a|] == b[0]; }
  }

  /** Some item ends with a blank line. */
  predicate Ragged(blocks: seq<Block<string>>) {
    exists i :: 0 <= i < |blocks| && Blank(Last(Whole(blocks[i])))
  }

  lemma RaggedCons(blocks: seq<Block<string>>)
    requires blocks != []
    ensures Ragged(blocks) <==> Blank(Last(Whole(blocks[0]))) || Ragged(blocks[1..])
  {
    if i :| 0 <= i < |blocks| && Blank(Last(Whole(blocks[i]))) {
      if i > 0 { assert blocks[1..][i - 1] == blocks[i]; }
    }
    if i :| 0 <= i < |blocks[1..]| && Blank(Last(Whole(blocks[1..][i]))) { assert blocks[i + 1] == blocks[1..][i]; }
  }

  lemma {:induction false} LooseBlocks(blocks: seq<Block<string>>)
    requires GoodBlocks(IsListItem, blocks) && blocks != []
    ensures Uncut(blocks) != [] && Uncut(blocks)[0] == blocks[0].head
    ensures Loose(Uncut(blocks)) || Blank(Last(Uncut(blocks))) <==> Ragged(blocks)
  {
    var first, rest := Whole(blocks[0]), blocks[1..];
    assert GoodBlock(IsListItem, blocks[0]);
    assert !Loose(first);
    RaggedCons(blocks);
    if rest == [] {
      assert first + [] == first;
    } else {
      assert GoodBlocks(IsListItem, rest) && GoodBlock(IsListItem, rest[0]);
      LooseBlocks(rest);
      LooseJoin(first, Uncut(rest));
      LastOfJoin(first, Uncut(rest));
    }
  }

  /** Lines that start with text are only trimmed at the end. */
  lemma TrimFromText(lines: seq<string>) returns (z: seq<string>)
    requires lines != [] && !Blank(lines[0])
    ensures AllBlank(z) && lines == TrimBlank(lines) + z && TrimBlank(lines) != []
    ensures Blank(Last(lines)) ==> |TrimBlank(lines)| < |lines|
  {
    assert DropStart(lines) == lines;
    z := DropEndSplit(lines);
    TrimMembers(lines);
    assert lines[0] in TrimBlank(lines);
    if Blank(Last(lines)) { var y := DropEndSplit(lines[..|lines| - 1]); }
  }

  lemma KeyOfBlock(b: Block<string>)
    requires GoodBlock(IsListItem, b)
    ensures |KeyOf(b)| <= |Whole(b)|
    ensures Blank(Last(Whole(b))) ==> |KeyOf(b)| < |Whole(b)|
    ensures !Blank(Last(Whole(b))) ==> KeyOf(b) == Whole(b)
  {
    ListItemIsNotBlank(b.head);
    var z := TrimFromText(Whole(b));
    if !Blank(Last(Whole(b))) { TrimIdentity(Whole(b)); }
  }

  /** Flattening items leaves them alone exactly when none of them ends with a blank line. */
  lemma {:induction false} FlatIffEven(blocks: seq<Block<string>>)
    requires GoodBlocks(IsListItem, blocks)
    ensures |Flatten(Map(KeyOf, blocks))| <= |Uncut(blocks)|
    ensures Ragged(blocks) ==> |Flatten(Map(KeyOf, blocks))| < |Uncut(blocks)|
    ensures !Ragged(blocks) ==> Flatten(Map(KeyOf, blocks)) == Uncut(blocks)
  {
    if blocks != [] {
      assert GoodBlock(IsListItem, blocks[0]) && GoodBlocks(IsListItem, blocks[1..]);
      assert Map(KeyOf, blocks)[1..] == Map(KeyOf, blocks[1..]);
      KeyOfBlock(blocks[0]);
      RaggedCons(blocks);
      FlatIffEven(blocks[1..]);
    }
  }

  /** The spacing pass changes trimmed lines exactly when they start with an item and are loose. */
  lemma CompactFixedIff(lines: seq<string>)
    requires lines != [] && Trimmed(lines)
    ensures Compact(lines) == lines <==> !(IsListItem(lines[0]) && Loose(lines))
  {
    TrimIdentity(lines);
    CompactIs(lines);
    if IsListItem(lines[0]) {
      FlatFixedIff(lines);
    } else {
      assert Cut(IsListItem, lines).lead != [];
    }
  }

  lemma FlatFixedIff(lines: seq<string>)
    requires lines != [] && IsListItem(lines[0]) && Trimmed(lines)
    ensures Cut(IsListItem, lines).lead == []
    ensures Flatten(Keys(lines)) == lines <==> !Loose(lines)
  {
    var c := Cut(IsListItem, lines);
    CutWhole(IsListItem, lines);
    assert lines == [] + Uncut(c.blocks) == Uncut(c.blocks);
    LooseBlocks(c.blocks);
    FlatIffEven(c.blocks);
  }

  // ---- what the categories of one title are joined to ----

  /** The compacted texts of the categories of one title, in order. */
  function Pieces(categories: seq<Category>, title: string): seq<seq<string>> {
    if categories == [] then []
    else
      var last := categories[|categories| - 1];
      Pieces(categories[..|categories| - 1], title)
      + if last.title == title && Compact(last.lines) != [] then [Compact(last.lines)] else []
  }

  function Joined(pieces: seq<seq<string>>): seq<string> {
    if pieces == [] then [] else Append(Joined(pieces[..|pieces| - 1]), pieces[|pieces| - 1])
  }

  predicate CompactPiece(p: seq<string>) { p != [] && Trimmed(p) && Compact(p) == p }

  predicate CompactPieces(pieces: seq<seq<string>>) {
    forall i :: 0 <= i < |pieces| ==> CompactPiece(pieces[i])
  }

  lemma {:induction false} PiecesAreCompact(categories: seq<Category>, title: string)
    ensures CompactPieces(Pieces(categories, title))
  {
    if categories != [] {
      PiecesAreCompact(categories[..|categories| - 1], title);
      CompactFacts(categories[|categories| - 1].lines);
    }
  }

  /** Category by category, merging gives the joined texts of every title. */
  ghost predicate Merges(categories: seq<Category>, merged: seq<Category>, title: string) {
    var i, pieces := IndexOf(merged, title), Pieces(categories, title);
    (i < |merged| <==> pieces != []) && (i < |merged| ==> merged[i].lines == Joined(pieces))
  }

  lemma JoinedSnoc(pieces: seq<seq<string>>, p: seq<string>)
    ensures Joined(pieces + [p]) == Append(Joined(pieces), p)
  {
    assert (pieces + [p])[..|pieces|] == pieces;
  }

  lemma JoinedOne(p: seq<string>)
    requires CompactPiece(p)
    ensures Joined([p]) == p
  {
    JoinedSnoc([], p);
    TrimIdentity(p);
    assert [] + [p] == [p];
  }

  /** The first index is the only one that comes before all others. */
  lemma {:induction false} IndexOfIs(done: seq<Category>, title: string, i: nat)
    requires i <= |done| && (i < |done| ==> done[i].title == title)
    requires forall j :: 0 <= j < i ==> done[j].title != title
    ensures IndexOf(done, title) == i
  {
    if i > 0 { IndexOfIs(done[1..], title, i - 1); }
  }

  lemma IndexOfSnoc(done: seq<Category>, c: Category, title: string)
    ensures IndexOf(done + [c], title) == if IndexOf(done, title) < |done| then IndexOf(done, title)
                                         else if c.title == title then |done| else |done| + 1
  {
    var i := IndexOf(done, title);
    IndexOfIs(done + [c], title, if i < |done| then i else if c.title == title then |done| else |done| + 1);
  }

  lemma IndexOfUpdated(done: seq<Category>, k: nat, c: Category, title: string)
    requires k < |done| && done[k].title == c.title
    ensures IndexOf(done[k := c], title) == IndexOf(done, title)
  {
    IndexOfIs(done[k := c], title, IndexOf(done, title));
  }

  lemma {:induction false} MergesAll(categories: seq<Category>, title: string)
    ensures Merges(categories, MergeAll(categories), title)
  {
    if categories != [] {
      var init, last := categories[..|categories| - 1], categories[|categories| - 1];
      MergesAll(init, title);
      MergesAll(init, last.title);
      MergesOne(categories, MergeAll(init), last, title);
    }
  }

  lemma PiecesSnoc(categories: seq<Category>, title: string)
    requires categories != []
    ensures var init, last := categories[..|categories| - 1], categories[|categories| - 1];
      && (last.title == title && Compact(last.lines) != [] ==>
            Pieces(categories, title) == Pieces(init, title) + [Compact(last.lines)])
      && (last.title != title || Compact(last.lines) == [] ==> Pieces(categories, title) == Pieces(init, title))
  {
  }

  lemma MergesOne(categories: seq<Category>, done: seq<Category>, last: Category, title: string)
    requires categories != [] && last == categories[|categories| - 1]
    requires Merges(categories[..|categories| - 1], done, title)
             && Merges(categories[..|categories| - 1], done, last.title)
    ensures Merges(categories, AddCategory(done, last.title, last.lines), title)
  {
    var compact, k := Compact(last.lines), IndexOf(done, last.title);
    PiecesSnoc(categories, title);
    if compact != [] {
      if k < |done| {
        IndexOfUpdated(done, k, Category(last.title, Append(done[k].lines, compact)), title);
        JoinedSnoc(Pieces(categories[..|categories| - 1], last.title), compact);
      } else {
        IndexOfSnoc(done, Category(last.title, compact), title);
        FirstPiece(Pieces(categories[..|categories| - 1], last.title), last);
      }
    }
  }

  lemma FirstPiece(pieces: seq<seq<string>>, last: Category)
    requires pieces == [] && Compact(last.lines) != []
    ensures pieces + [Compact(last.lines)] != [] && Joined(pieces + [Compact(last.lines)]) == Compact(last.lines)
  {
    CompactFacts(last.lines);
    JoinedOne(Compact(last.lines));
    assert pieces + [Compact(last.lines)] == [Compact(last.lines)];
  }

  // ---- when the joined text is loose ----

  /** Joining the two puts a blank line in front of an item. */
  predicate Gap(a: seq<string>, b: seq<string>) {
    a != [] && b != [] && !IsListItem(Last(a)) && IsListItem(b[0])
  }

  predicate LooseAt(pieces: seq<seq<string>>, j: nat)
    requires j < |pieces|
  {
    Loose(pieces[j]) || (j > 0 && Gap(pieces[j - 1], pieces[j]))
  }

  predicate LoosePieces(pieces: seq<seq<string>>) {
    exists j :: 0 <= j < |pieces| && LooseAt(pieces, j)
  }

  lemma LooseSnoc(pieces: seq<seq<string>>)
    requires pieces != []
    ensures LoosePieces(pieces) <==> LoosePieces(pieces[..|pieces| - 1]) || LooseAt(pieces, |pieces| - 1)
  {
    var init := pieces[..|pieces| - 1];
    if j :| 0 <= j < |pieces| && LooseAt(pieces, j) {
      if j < |init| { assert LooseAt(init, j); }
    }
    if j :| 0 <= j < |init| && LooseAt(init, j) { assert LooseAt(pieces, j); }
  }

  lemma LooseAppend(a: seq<string>, b: seq<string>)
    requires a != [] && b != [] && Trimmed(a) && Trimmed(b)
    ensures Append(a, b) != [] && Trimmed(Append(a, b))
    ensures Append(a, b)[0] == a[0] && Last(Append(a, b)) == Last(b)
    ensures Loose(Append(a, b)) <==> Loose(a) || Loose(b) || Gap(a, b)
  {
    AppendFacts(a, b);
    var sep := Separator(Last(a), b[0]);
    if sep == [] {
      assert a + sep + b == a + b;
      LooseJoin(a, b);
    } else {
      assert Blank("") && !IsListItem("");
      LooseJoin(a, [""]);
      LooseJoin(a + [""], b);
    }
  }

  lemma {:induction false} JoinedFacts(pieces: seq<seq<string>>)
    requires pieces != [] && CompactPieces(pieces)
    ensures Joined(pieces) != [] && Trimmed(Joined(pieces)) && pieces[0] != [] && pieces[|pieces| - 1] != []
    ensures Joined(pieces)[0] == pieces[0][0] && Last(Joined(pieces)) == Last(pieces[|pieces| - 1])
    ensures Loose(Joined(pieces)) <==> LoosePieces(pieces)
  {
    var init, last := pieces[..|pieces| - 1], pieces[|pieces| - 1];
    assert CompactPiece(last) && CompactPiece(pieces[0]);
    LooseSnoc(pieces);
    if init == [] {
      assert pieces == [last];
      JoinedOne(last);
    } else {
      assert CompactPieces(init);
      JoinedFacts(init);
      LooseAppend(Joined(init), last);
    }
  }

  /** Joined texts that start with an item and are loose: what the next pass would still compact. */
  predicate LeavesGap(pieces: seq<seq<string>>) {
    pieces != [] && pieces[0] != [] && IsListItem(pieces[0][0]) && LoosePieces(pieces)
  }

  lemma JoinedSettles(pieces: seq<seq<string>>)
    requires pieces != [] && CompactPieces(pieces)
    ensures SettledCategory(Category("", Joined(pieces))) <==> !LeavesGap(pieces)
  {
    JoinedFacts(pieces);
    CompactFixedIff(Joined(pieces));
  }

  /** Some title's categories are joined that way. A single category never is. */
  predicate LeavesBlank(r: Release) {
    exists c :: c in r.categories && LeavesGap(Pieces(r.categories, c.title))
  }

  lemma {:induction false} PiecesOfTitle(categories: seq<Category>, title: string)
    requires Pieces(categories, title) != []
    ensures exists c :: c in categories && c.title == title
  {
    var init, last := categories[..|categories| - 1], categories[|categories| - 1];
    assert last in categories;
    if Pieces(init, title) != [] {
      PiecesOfTitle(init, title);
      var c :| c in init && c.title == title;
      assert c in categories;
    }
  }

  lemma MergedCategory(categories: seq<Category>, c: Category)
    requires c in MergeAll(categories)
    ensures Pieces(categories, c.title) != [] && c.lines == Joined(Pieces(categories, c.title))
  {
    var merged := MergeAll(categories);
    MergeDistinct(categories);
    MergesAll(categories, c.title);
    var i :| 0 <= i < |merged| && merged[i] == c;
    var k := IndexOf(merged, c.title);
    assert k == i;
  }

  lemma PiecesAreMerged(categories: seq<Category>, title: string)
    requires Pieces(categories, title) != []
    ensures exists c :: c in MergeAll(categories) && c.title == title
  {
    MergesAll(categories, title);
    var merged := MergeAll(categories);
    assert merged[IndexOf(merged, title)] in merged;
  }

  lemma MergedSettlesIff(r: Release)
    ensures (forall c :: c in MergeAll(r.categories) ==> SettledCategory(c)) <==> !LeavesBlank(r)
  {
    var merged := MergeAll(r.categories);
    forall c | c in merged ensures SettledCategory(c) <==> !LeavesGap(Pieces(r.categories, c.title)) {
      MergedCategory(r.categories, c);
      PiecesAreCompact(r.categories, c.title);
      JoinedSettles(Pieces(r.categories, c.title));
    }
    if c :| c in r.categories && LeavesGap(Pieces(r.categories, c.title)) {
      PiecesAreMerged(r.categories, c.title);
    }
    if c :| c in merged && !SettledCategory(c) {
      MergedCategory(r.categories, c);
      PiecesOfTitle(r.categories, c.title);
    }
  }

  /** Normalising a release settles it exactly when no join leaves a blank line in front of an item. */
  lemma NormalizedSettlesIff(r: Release)
    ensures Settled(NormalizeRelease(r)) <==> !LeavesBlank(r)
  {
    var merged, after := MergeAll(r.categories), NormalizeRelease(r).categories;
    MergedSettlesIff(r);
    NormalizeTidies(r);
    assert Ordering(Earlier);
    SortSorts(Earlier, merged);
    SortPermutes(Earlier, merged);
    assert forall c :: c in after <==> c in merged;
  }

  // ---- the items of joined texts ----

  /** The items after appending lines to lines that hold `keys`: text in front of the first new item joins
      the last one there was. */
  function Carry(keys: seq<Key>, lines: seq<string>): seq<Key> {
    var lead := Cut(IsListItem, lines).lead;
    if lead == [] || keys == [] then keys + Keys(lines)
    else keys[..|keys| - 1] + [keys[|keys| - 1] + [""] + TrimBlank(lead)] + Keys(lines)
  }

  function JoinedKeys(pieces: seq<seq<string>>): seq<Key> {
    if pieces == [] then [] else Carry(JoinedKeys(pieces[..|pieces| - 1]), pieces[|pieces| - 1])
  }

  /** An item runs on over a blank line and more text. */
  lemma KeyRunsOn(b: Block<string>, lead: seq<string>)
    requires GoodBlock(IsListItem, b) && !Blank(Last(Whole(b))) && lead != [] && !Blank(lead[0])
    ensures KeyOf(Block(b.head, b.body + ([""] + lead))) == KeyOf(b) + [""] + TrimBlank(lead)
  {
    var z := TrimFromText(lead);
    var t := TrimBlank(lead);
    KeyOfBlock(b);
    TrimMembers(lead);
    ListItemIsNotBlank(b.head);
    var x := Whole(b) + [""] + t;
    assert x[0] == b.head && Last(x) == Last(t);
    assert Whole(Block(b.head, b.body + ([""] + lead))) == [] + x + z;
    TrimUnique([], x, z);
  }

  lemma ExtendedKeys(c: Cuts<string>, more: seq<string>)
    requires c.blocks != []
    ensures var n := |c.blocks| - 1;
      Map(KeyOf, Extended(c, more).blocks)
        == Map(KeyOf, c.blocks)[..n] + [KeyOf(Block(c.blocks[n].head, c.blocks[n].body + more))]
  {
  }

  lemma KeysRunOn(lines: seq<string>, lead: seq<string>)
    requires lines != [] && Trimmed(lines) && lead != [] && !Blank(lead[0]) && Headless(IsListItem, lead)
    ensures var keys := Keys(lines);
      Keys(lines + ([""] + lead)) == if keys == [] then []
                                     else keys[..|keys| - 1] + [keys[|keys| - 1] + [""] + TrimBlank(lead)]
  {
    var c := Cut(IsListItem, lines);
    HeadlessAfterBlank(lead);
    CutAppend(IsListItem, lines, [""] + lead);
    if c.blocks != [] {
      var n := |c.blocks| - 1;
      LastBlock(lines);
      KeyRunsOn(c.blocks[n], lead);
      ExtendedKeys(c, [""] + lead);
    }
  }

  lemma HeadlessAfterBlank(lead: seq<string>)
    requires Headless(IsListItem, lead)
    ensures Headless(IsListItem, [""] + lead)
  {
    assert !IsListItem("");
  }

  lemma LastBlock(lines: seq<string>)
    requires lines != [] && Trimmed(lines) && Cut(IsListItem, lines).blocks != []
    ensures var b := Cut(IsListItem, lines).blocks[|Cut(IsListItem, lines).blocks| - 1];
      GoodBlock(IsListItem, b) && !Blank(Last(Whole(b)))
  {
    CutWhole(IsListItem, lines);
    LastLine(Cut(IsListItem, lines));
  }

  lemma LastLine(c: Cuts<string>)
    requires c.blocks != []
    ensures c.lead + Uncut(c.blocks) != []
    ensures Last(c.lead + Uncut(c.blocks)) == Last(Whole(c.blocks[|c.blocks| - 1]))
  {
    var n := |c.blocks| - 1;
    UncutJoin(c.blocks[..n], [c.blocks[n]]);
    UncutOne(c.blocks[n]);
    assert c.blocks == c.blocks[..n] + [c.blocks[n]];
    LastOfJoin(Uncut(c.blocks[..n]), Whole(c.blocks[n]));
    LastOfJoin(c.lead, Uncut(c.blocks));
  }

  /** Lines that start with an item add their items. */
  lemma KeysOfItemsAfter(a: seq<string>, b: seq<string>)
    requires a != [] && b != [] && Trimmed(a) && Trimmed(b) && Cut(IsListItem, b).lead == []
    ensures Keys(Append(a, b)) == Keys(a) + Keys(b)
  {
    var sep := Separator(Last(a), b[0]);
    AppendFacts(a, b);
    assert AllBlank(sep);
    KeysPaddedAfter(a, sep);
    KeysConcat(a + sep, b);
  }

  /** Lines that start with other text. */
  lemma KeysOfTextAfter(a: seq<string>, b: seq<string>)
    requires a != [] && b != [] && Trimmed(a) && Trimmed(b) && Cut(IsListItem, b).lead != []
    ensures Keys(Append(a, b)) == Keys(a + ([""] + Cut(IsListItem, b).lead)) + Keys(b)
  {
    var c := Cut(IsListItem, b);
    var items := Uncut(c.blocks);
    AppendFacts(a, b);
    CutWhole(IsListItem, b);
    assert b[0] == c.lead[0] && !IsListItem(b[0]);
    CutUnique(IsListItem, [], c.blocks);
    EmptyFront(items);
    TextBetween(a, c.lead, items);
    KeysConcat(a + ([""] + c.lead), items);
  }

  lemma EmptyFront(s: seq<string>)
    ensures [] + s == s
  {
  }

  lemma TextBetween(a: seq<string>, lead: seq<string>, items: seq<string>)
    ensures a + [""] + (lead + items) == (a + ([""] + lead)) + items
  {
  }

  lemma KeysOfAppend(a: seq<string>, b: seq<string>)
    requires a != [] && b != [] && Trimmed(a) && Trimmed(b)
    ensures Keys(Append(a, b)) == Carry(Keys(a), b)
  {
    var lead := Cut(IsListItem, b).lead;
    if lead == [] {
      KeysOfItemsAfter(a, b);
    } else {
      CutWhole(IsListItem, b);
      assert b[0] == lead[0];
      KeysOfTextAfter(a, b);
      KeysRunOn(a, lead);
      if Keys(a) == [] { assert [] + Keys(b) == Keys(b); }
    }
  }

  lemma {:induction false} KeysOfJoined(pieces: seq<seq<string>>)
    requires CompactPieces(pieces)
    ensures Keys(Joined(pieces)) == JoinedKeys(pieces)
  {
    if pieces == [] {
    } else {
      var init, last := pieces[..|pieces| - 1], pieces[|pieces| - 1];
      assert CompactPiece(last) && CompactPieces(init);
      KeysOfJoined(init);
      if init == [] {
        assert pieces == [last];
        JoinedOne(last);
        assert [] + Keys(last) == Keys(last);
      } else {
        JoinedFacts(init);
        KeysOfAppend(Joined(init), last);
      }
    }
  }

  /** An item of the categories once those of one title are joined. */
  ghost predicate MergedKey(categories: seq<Category>, k: Key) {
    exists c :: c in categories && k in JoinedKeys(Pieces(categories, c.title))
  }

  lemma NormalizedKeys(r: Release, k: Key)
    ensures k in KeysIn(NormalizeRelease(r).categories) <==> MergedKey(r.categories, k)
  {
    var merged, after := MergeAll(r.categories), NormalizeRelease(r).categories;
    SortPermutes(Earlier, merged);
    KeysOfMembers(merged, after);
    KeysInMembers(merged, k);
    forall c | c in merged ensures k in Keys(c.lines) <==> k in JoinedKeys(Pieces(r.categories, c.title)) {
      MergedCategory(r.categories, c);
      PiecesAreCompact(r.categories, c.title);
      KeysOfJoined(Pieces(r.categories, c.title));
    }
    if c :| c in r.categories && k in JoinedKeys(Pieces(r.categories, c.title)) {
      PiecesAreMerged(r.categories, c.title);
    }
    if c :| c in merged && k in Keys(c.lines) {
      MergedCategory(r.categories, c);
      PiecesOfTitle(r.categories, c.title);
    }
  }

  /** Joining makes an unreleased item one that is released. */
  ghost predicate MakesDuplicate(historical: set<Key>, releases: seq<Release>) {
    var i := FirstUnreleased(releases);
    i < |releases| && exists k :: MergedKey(releases[i].categories, k) && ReleasedAfter(historical, releases, k)
  }

  ghost predicate ReleasedAfter(historical: set<Key>, releases: seq<Release>, k: Key) {
    k in historical || exists r :: r in releases && !Unreleased(r) && MergedKey(r.categories, k)
  }

  lemma {:induction false} ReleasedAfterIff(historical: set<Key>, releases: seq<Release>, k: Key)
    ensures ReleasedAfter(historical, releases, k) <==> k in ReleasedKeys(Map(NormalizeRelease, releases)) + historical
  {
    if releases != [] {
      NormalizedKeys(releases[0], k);
      assert Map(NormalizeRelease, releases)[1..] == Map(NormalizeRelease, releases[1..]);
      ReleasedAfterIff(historical, releases[1..], k);
      assert forall r :: r in releases <==> r == releases[0] || r in releases[1..];
    }
  }

  lemma {:induction false} SameFirstUnreleased(releases: seq<Release>)
    ensures FirstUnreleased(Map(NormalizeRelease, releases)) == FirstUnreleased(releases)
  {
    if releases != [] {
      assert Map(NormalizeRelease, releases)[1..] == Map(NormalizeRelease, releases[1..]);
      SameFirstUnreleased(releases[1..]);
    }
  }

  lemma NormalizedCleanIff(historical: set<Key>, releases: seq<Release>)
    ensures Clean(historical, Map(NormalizeRelease, releases)) <==> !MakesDuplicate(historical, releases)
  {
    var after, i := Map(NormalizeRelease, releases), FirstUnreleased(releases);
    SameFirstUnreleased(releases);
    if i < |releases| {
      forall k ensures k in KeysIn(after[i].categories) && k in ReleasedKeys(after) + historical <==>
                       MergedKey(releases[i].categories, k) && ReleasedAfter(historical, releases, k)
      {
        NormalizedKeys(releases[i], k);
        ReleasedAfterIff(historical, releases, k);
      }
    }
  }

  lemma CleanSortedIff(versions: Versions, historical: set<Key>, releases: seq<Release>)
    ensures Clean(historical, SortReleases(versions, releases)) <==> Clean(historical, releases)
  {
    var sorted := SortReleases(versions, releases);
    TargetSorted(versions, releases);
    SortMembers(versions, releases);
    ReleasedOfMembers(sorted, releases);
    var i, j := FirstUnreleased(sorted), FirstUnreleased(releases);
    assert Target(sorted) == if i == |sorted| then [] else [sorted[i]];
    assert Target(releases) == if j == |releases| then [] else [releases[j]];
  }

  // ---- one pass ----

  /** What one pass leaves for the next, read off what it starts from: the releases without the items it drops. */
  ghost predicate Leftovers(historical: set<Key>, log: Changelog) {
    var dropped := DropReleased(log.releases, historical);
    MakesDuplicate(historical, dropped) || exists r :: r in dropped && LeavesBlank(r)
  }

  lemma {:induction false} AllSettledIff(releases: seq<Release>)
    ensures (forall r :: r in Map(NormalizeRelease, releases) ==> Settled(r)) <==>
            !exists r :: r in releases && LeavesBlank(r)
  {
    if releases != [] {
      var after := Map(NormalizeRelease, releases);
      NormalizedSettlesIff(releases[0]);
      assert after[1..] == Map(NormalizeRelease, releases[1..]);
      AllSettledIff(releases[1..]);
      assert forall r :: r in releases <==> r == releases[0] || r in releases[1..];
      assert forall r :: r in after <==> r == after[0] || r in after[1..];
    }
  }

  lemma FinishedIff(versions: Versions, historical: set<Key>, log: Changelog)
    ensures Finished(versions, historical, Fix(versions, historical, log)) <==> !Leftovers(historical, log)
  {
    var dropped := DropReleased(log.releases, historical);
    var normalized := Map(NormalizeRelease, dropped);
    NormalizedCleanIff(historical, dropped);
    CleanSortedIff(versions, historical, normalized);
    SortOnce(versions, normalized);
    SortMembers(versions, normalized);
    AllSettledIff(dropped);
  }

  /** A second pass changes nothing exactly when the first has finished. */
  lemma FixedIffFinished(versions: Versions, historical: set<Key>, content: string)
    ensures var once := FixText(versions, historical, content);
      FixText(versions, historical, once) == once <==>
        Finished(versions, historical, Fix(versions, historical, View(Parse(content))))
  {
    var once, log := FixText(versions, historical, content), Fix(versions, historical, View(Parse(content)));
    FixedIsReread(versions, historical, content);
    FixedIsReread(versions, historical, once);
    if Finished(versions, historical, log) {
      FinishedIsFixed(versions, historical, log);
    }
    if FixText(versions, historical, once) == once {
      assert Fix(versions, historical, log) == log;
      FixTidies(versions, historical, View(Parse(content)));
      TidyFinishes(versions, historical, log);
    }
  }

  /** For every file: one pass is enough if and only if joining categories of one title leaves no blank line in
      front of an item of a text that starts with one, and makes no unreleased item one that is released. */
  lemma OnePassIff(versions: Versions, historical: set<Key>, content: string)
    ensures var once := FixText(versions, historical, content);
      FixText(versions, historical, once) == once <==> !Leftovers(historical, View(Parse(content)))
  {
    FixedIffFinished(versions, historical, content);
    FinishedIff(versions, historical, View(Parse(content)));
  }

  // ---- files for which it is not ----

  lemma ListItems()
    ensures IsListItem("- a") && !IsListItem("  more") && IsListItem("- b") && !IsListItem("")
    ensures !Blank("- a") && !Blank("  more") && !Blank("- b") && Blank("")
  {
    assert "  more"[1..] == " more" && " more"[1..] == "more";
    assert TrimStart(" more") == TrimStart("more") == "more";
    assert !IsSpace("  more"[2]) && !IsSpace("- a"[0]) && !IsSpace("- b"[0]);
    assert TrimStart("- a") == "- a" && TrimStart("- b") == "- b";
  }

  const FIRST: seq<string> := ["- a", "  more"]
  const SECOND: seq<string> := ["- b"]

  lemma OneItem(key: seq<string>)
    requires GoodKey(key)
    ensures Compact(key) == key
  {
    TrimIdentity(key);
    KeysOfFlatten([key]);
    FlattenOne(key);
    CompactIs(key);
  }

  lemma FlattenOne(key: seq<string>)
    ensures Flatten([key]) == key
  {
    assert [key][1..] == [] && key + [] == key;
  }

  lemma ExampleKeys()
    ensures GoodKey(FIRST) && GoodKey(SECOND) && IsListItem("- b") && !IsListItem("  more")
  {
    ListItems();
    assert FIRST[1..] == ["  more"] && SECOND[1..] == [];
  }

  lemma MergeOne(c: Category)
    requires Compact(c.lines) != []
    ensures MergeAll([c]) == [Category(c.title, Compact(c.lines))]
  {
    assert [c][..0] == [];
    assert IndexOf([], c.title) == 0;
  }

  lemma MergedOnce()
    ensures MergeAll([Category("Fixed", FIRST), Category("Fixed", SECOND)])
            == [Category("Fixed", FIRST + [""] + SECOND)]
  {
    ExampleKeys();
    OneItem(FIRST);
    OneItem(SECOND);
    var a, b := Category("Fixed", FIRST), Category("Fixed", SECOND);
    MergeOne(a);
    assert [a, b][..1] == [a];
    assert IndexOf([a], "Fixed") == 0;
    AppendFacts(FIRST, SECOND);
  }

  lemma MergedTwice()
    ensures MergeAll([Category("Fixed", FIRST + [""] + SECOND)]) == [Category("Fixed", FIRST + SECOND)]
  {
    TwoItems();
    MergeOne(Category("Fixed", FIRST + [""] + SECOND));
  }

  lemma TwoItems()
    ensures Compact(FIRST + [""] + SECOND) == FIRST + SECOND
  {
    ListItems();
    var lines := FIRST + [""] + SECOND;
    TrimIdentity(lines);
    TwoKeys(lines);
    FlattenOne(SECOND);
    assert [FIRST, SECOND][1..] == [SECOND];
    CompactIs(lines);
  }

  lemma OneKey(key: Key)
    requires GoodKey(key)
    ensures Keys(key) == [key] && Cut(IsListItem, key).lead == []
  {
    KeysOfFlatten([key]);
    FlattenOne(key);
  }

  lemma TwoKeys(lines: seq<string>)
    requires lines == FIRST + [""] + SECOND
    ensures Cut(IsListItem, lines).lead == [] && Keys(lines) == [FIRST, SECOND]
  {
    ExampleKeys();
    OneKey(FIRST);
    OneKey(SECOND);
    AppendFacts(FIRST, SECOND);
    KeysOfItemsAfter(FIRST, SECOND);
    assert lines[0] == "- a";
  }

  lemma {:induction false} CloseIs(line: string, k: nat, r: nat)
    requires k <= r < |line| && line[r] == ']' && forall i :: k <= i < r ==> line[i] != ']'
    ensures CloseFrom(line, k) == r
    decreases r - k
  {
    if k < r { CloseIs(line, k + 1, r); }
  }

  const RELEASED := "## [" + "1.0.0" + "]"
  const UNRELEASED := "## [" + "Unreleased" + "]"

  lemma HeadingIs(line: string, title: string)
    requires line == "## [" + title + "]" && title != "" && ']' !in title
    ensures IsReleaseHeading(line) && ReleaseTitle(line) == title
  {
    assert line[..4] == "## [" && line[4..4 + |title|] == title;
    CloseIs(line, 4, 4 + |title|);
  }

  lemma ReleasedHeading()
    ensures IsReleaseHeading(RELEASED) && Plain(RELEASED) && TitleOf(RELEASED) == "1.0.0"
  {
    HeadingIs(RELEASED, "1.0.0");
  }

  lemma UnreleasedHeading()
    ensures IsReleaseHeading(UNRELEASED) && Plain(UNRELEASED) && TitleOf(UNRELEASED) == "Unreleased"
  {
    HeadingIs(UNRELEASED, "Unreleased");
  }

  lemma Headings()
    ensures IsReleaseHeading(RELEASED) && Plain(RELEASED) && TitleOf(RELEASED) == "1.0.0"
    ensures IsReleaseHeading(UNRELEASED) && Plain(UNRELEASED) && TitleOf(UNRELEASED) == "Unreleased"
  {
    ReleasedHeading();
    UnreleasedHeading();
  }

  lemma OneRelease(r: Release)
    requires GoodRelease(r)
    ensures View(Parse(Render(Changelog([], [r])))) == Changelog([], [r])
  {
    RenderedIsParsed(Changelog([], [r]));
  }

  /** A release with two categories of one title, the first of which does not end with an item's own line. */
  const SPLIT_RELEASE := Release(RELEASED, [], [Category("Fixed", FIRST), Category("Fixed", SECOND)])

  /** Lines of text under one of the usual titles. */
  lemma GoodFixed(lines: seq<string>)
    requires lines != [] && Trimmed(lines) && GoodLines(lines)
    ensures GoodCategory(Category("Fixed", lines))
  {
    forall i | 0 <= i < |lines| ensures BodyLine(lines[i]) { assert lines[i] in lines; }
  }

  lemma GoodReleaseOf(heading: string, categories: seq<Category>)
    requires IsReleaseHeading(heading) && Plain(heading)
    requires forall i :: 0 <= i < |categories| ==> GoodCategory(categories[i])
    ensures GoodRelease(Release(heading, [], categories))
  {
  }

  lemma SplitIsGood()
    ensures GoodRelease(SPLIT_RELEASE)
  {
    Headings();
    ListItems();
    assert BodyLine("- a") && BodyLine("  more") && BodyLine("- b");
    GoodFixed(FIRST);
    GoodFixed(SECOND);
    GoodReleaseOf(RELEASED, SPLIT_RELEASE.categories);
  }

  lemma OnePiece(c: Category)
    requires Compact(c.lines) == c.lines != []
    ensures Pieces([c], c.title) == [c.lines] && JoinedKeys([c.lines]) == Keys(c.lines)
  {
    assert [c][..0] == [] && [] + [c.lines] == [c.lines];
    assert [c.lines][..0] == [] && [] + Keys(c.lines) == Keys(c.lines);
  }

  lemma TwoPieces(c: Category, d: Category)
    requires Compact(c.lines) == c.lines != [] && Compact(d.lines) == d.lines != [] && c.title == d.title
    ensures Pieces([c, d], c.title) == [c.lines, d.lines]
    ensures JoinedKeys([c.lines, d.lines]) == Carry(Keys(c.lines), d.lines)
  {
    OnePiece(c);
    assert [c, d][..1] == [c] && [c.lines] + [d.lines] == [c.lines, d.lines];
    assert [c.lines, d.lines][..1] == [c.lines];
  }

  /** A file that one pass does not finish: merging leaves a blank line between the items, which only another
      pass removes. */
  lemma MergingNeedsAnotherPass(versions: Versions, historical: set<Key>)
    ensures var once := FixText(versions, historical, Render(Changelog([], [SPLIT_RELEASE])));
      FixText(versions, historical, once) != once
    ensures MergeAll(SPLIT_RELEASE.categories) == [Category("Fixed", FIRST + [""] + SECOND)]
    ensures MergeAll([Category("Fixed", FIRST + [""] + SECOND)]) == [Category("Fixed", FIRST + SECOND)]
  {
    MergedOnce();
    MergedTwice();
    SplitIsGood();
    OneRelease(SPLIT_RELEASE);
    SplitLeavesBlank();
    NothingUnreleased(SPLIT_RELEASE, historical);
    assert SPLIT_RELEASE in [SPLIT_RELEASE];
    OnePassIff(versions, historical, Render(Changelog([], [SPLIT_RELEASE])));
  }

  lemma SplitLeavesBlank()
    ensures LeavesBlank(SPLIT_RELEASE) && !Unreleased(SPLIT_RELEASE)
  {
    Headings();
    ExampleKeys();
    OneItem(FIRST);
    OneItem(SECOND);
    var a, b := Category("Fixed", FIRST), Category("Fixed", SECOND);
    TwoPieces(a, b);
    assert LooseAt([FIRST, SECOND], 1);
    assert a in SPLIT_RELEASE.categories;
  }

  lemma NothingUnreleased(r: Release, historical: set<Key>)
    requires !Unreleased(r)
    ensures DropReleased([r], historical) == [r]
  {
    assert [r][1..] == [] && FirstUnreleased([r]) == 1 + FirstUnreleased([r][1..]);
  }

  const MORE: seq<string> := ["more"]
  const ITEM: seq<string> := ["- a"]
  const WHOLE: seq<string> := ["- a", "", "more"]

  const TWO_RELEASES := [
    Release(UNRELEASED, [], [Category("Fixed", ITEM), Category("Fixed", MORE)]),
    Release(RELEASED, [], [Category("Fixed", WHOLE)])]

  lemma MoreLines()
    ensures IsListItem("- a") && !IsListItem("more") && !IsListItem("")
    ensures !Blank("- a") && !Blank("more") && Blank("") && GoodKey(ITEM) && GoodKey(WHOLE)
  {
    assert TrimStart("- a") == "- a" && TrimStart("more") == "more";
    assert !IsSpace("more"[0]) && !IsSpace("- a"[0]);
    assert ITEM[1..] == [] && WHOLE[1..] == ["", "more"];
  }

  lemma TwoReleasesGood()
    ensures GoodLog(Changelog([], TWO_RELEASES))
  {
    Headings();
    MoreLines();
    assert BodyLine("- a") && BodyLine("more") && BodyLine("");
    GoodFixed(ITEM);
    GoodFixed(MORE);
    GoodFixed(WHOLE);
    GoodReleaseOf(UNRELEASED, TWO_RELEASES[0].categories);
    GoodReleaseOf(RELEASED, TWO_RELEASES[1].categories);
  }

  lemma ItemKeys()
    ensures Keys(ITEM) == [ITEM] && Compact(ITEM) == ITEM && Keys(MORE) == [] && Compact(MORE) == MORE
    ensures Keys(WHOLE) == [WHOLE] && Compact(WHOLE) == WHOLE && Cut(IsListItem, MORE).lead == MORE
    ensures TrimBlank(MORE) == MORE
  {
    MoreLines();
    OneItem(ITEM);
    OneItem(WHOLE);
    KeysOfFlatten([ITEM]);
    KeysOfFlatten([WHOLE]);
    FlattenOne(ITEM);
    FlattenOne(WHOLE);
    assert MORE[1..] == [] && Cut(IsListItem, MORE) == Cuts(["more"] + [], []);
    TrimIdentity(MORE);
    CompactIs(MORE);
  }

  lemma KeysInOne(c: Category)
    ensures KeysIn([c]) == KeySet(c.lines)
  {
    assert [c][1..] == [];
  }

  lemma KeysOfReleases()
    ensures KeysIn(TWO_RELEASES[0].categories) == {ITEM} && KeysIn(TWO_RELEASES[1].categories) == {WHOLE}
  {
    ItemKeys();
    var a, b := Category("Fixed", ITEM), Category("Fixed", MORE);
    assert KeySet(ITEM) == {ITEM} && KeySet(MORE) == {} && KeySet(WHOLE) == {WHOLE};
    KeysInOne(b);
    KeysInOne(Category("Fixed", WHOLE));
    assert [a, b][1..] == [b];
  }

  lemma ReleasedInTwo()
    ensures ReleasedKeys(TWO_RELEASES) == {WHOLE} && FirstUnreleased(TWO_RELEASES) == 0
  {
    Headings();
    KeysOfReleases();
    assert TWO_RELEASES[1..] == [TWO_RELEASES[1]] && [TWO_RELEASES[1]][1..] == [];
    assert ReleasedKeys(TWO_RELEASES[1..]) == {WHOLE};
  }

  lemma TwoFilled()
    ensures AllFilled(TWO_RELEASES)
  {
    MoreLines();
    forall i | 0 <= i < 2 ensures Filled(TWO_RELEASES[i].categories) {}
  }

  /** Nothing is dropped: the item that is released is not there yet. */
  lemma NothingToDrop()
    ensures DropReleased(TWO_RELEASES, {}) == TWO_RELEASES && FirstUnreleased(TWO_RELEASES) == 0
  {
    KeysOfReleases();
    ReleasedInTwo();
    TwoFilled();
    assert |ITEM| == 1 && |WHOLE| == 3;
    DropsNothing({}, TWO_RELEASES);
  }

  /** Lines without items of their own join the item in front. */
  lemma TextJoins(key: Key, lines: seq<string>)
    requires lines != [] && Cut(IsListItem, lines).lead == lines == TrimBlank(lines) && Keys(lines) == []
    ensures Carry([key], lines) == [key + [""] + lines]
  {
    assert [key][..0] == [] && [] + [key + [""] + lines] + [] == [key + [""] + lines];
  }

  lemma WholeIs()
    ensures ITEM + [""] + MORE == WHOLE
  {
  }

  lemma JoinedPieces()
    ensures JoinedKeys([ITEM, MORE]) == [WHOLE]
    ensures Pieces([Category("Fixed", ITEM), Category("Fixed", MORE)], "Fixed") == [ITEM, MORE]
  {
    ItemKeys();
    TwoPieces(Category("Fixed", ITEM), Category("Fixed", MORE));
    TextJoins(ITEM, MORE);
    WholeIs();
  }

  lemma JoinedItem()
    ensures MergedKey(TWO_RELEASES[0].categories, WHOLE)
  {
    JoinedPieces();
    var a := Category("Fixed", ITEM);
    assert a in TWO_RELEASES[0].categories;
  }

  lemma JoinedDuplicate()
    ensures MakesDuplicate({}, TWO_RELEASES)
  {
    JoinedItem();
    ItemKeys();
    Headings();
    ReleasedInTwo();
    var c := Category("Fixed", WHOLE);
    OnePiece(c);
    assert c in TWO_RELEASES[1].categories && MergedKey(TWO_RELEASES[1].categories, WHOLE);
    assert TWO_RELEASES[1] in TWO_RELEASES && ReleasedAfter({}, TWO_RELEASES, WHOLE);
  }

  /** Another file that one pass does not finish: merging makes the unreleased item one that is released, and
      only another pass drops it. */
  lemma MergingMakesDuplicate(versions: Versions)
    ensures var once := FixText(versions, {}, Render(Changelog([], TWO_RELEASES)));
      FixText(versions, {}, once) != once
  {
    TwoReleasesGood();
    RenderedIsParsed(Changelog([], TWO_RELEASES));
    NothingToDrop();
    JoinedDuplicate();
    OnePassIff(versions, {}, Render(Changelog([], TWO_RELEASES)));
  }
}
