/** The promotion loop over all sections, with its in-place growth of the section list: what moves, what
    stays, and that no text is lost. */
module PromotionRun {
  import opened ChangelogText
  import opened ChangelogDocument
  import opened ChangelogItems
  import opened ChangelogPasses
  import opened NumberedItems
  import opened ReleasedDuplicates
  import opened Boards
  import P = Promotion

  // ---- what a list of sections holds ----

  predicate SectionItem(s: Section, title: string, x: Item) {
    exists j :: 0 <= j < |s.subsections| && s.subsections[j].title == title
                && x in NumberedItemsOf(s.subsections[j].lines)
  }

  /** A released section with this heading holds item `x` under this category title. */
  predicate ReleasedItem(sections: seq<Section>, heading: string, title: string, x: Item) {
    exists i :: 0 <= i < |sections| && sections[i].title != P.UNRELEASED && sections[i].heading == heading
                && SectionItem(sections[i], title, x)
  }

  predicate SectionHolds(s: Section, title: string, key: Key) {
    exists j :: 0 <= j < |s.subsections| && s.subsections[j].title == title
                && key in Keys(Texts(s.subsections[j].lines))
  }

  /** An Unreleased section holds an item with this key under this category title. */
  predicate Holds(sections: seq<Section>, title: string, key: Key) {
    exists i :: 0 <= i < |sections| && sections[i].title == P.UNRELEASED && SectionHolds(sections[i], title, key)
  }

  predicate SectionText(s: Section, t: string) {
    t in Texts(s.leading) || exists j :: 0 <= j < |s.subsections| && t in Texts(s.subsections[j].lines)
  }

  predicate InBody(sections: seq<Section>, t: string) {
    exists i :: 0 <= i < |sections| && SectionText(sections[i], t)
  }

  /** No text appears or disappears. */
  ghost predicate SameBody(a: seq<Section>, b: seq<Section>) {
    forall t :: !Blank(t) ==> (InBody(a, t) <==> InBody(b, t))
  }

  /** Released sections gain nothing, and lose only promotable items, which Unreleased then holds. */
  ghost predicate OnlyPromotes(a: seq<Section>, b: seq<Section>, promotable: set<nat>) {
    && (forall h, t, x :: ReleasedItem(b, h, t, x) ==> ReleasedItem(a, h, t, x))
    && (forall h, t, x :: ReleasedItem(a, h, t, x) ==>
          ReleasedItem(b, h, t, x) || (Start(x) in promotable && Holds(b, t, ItemKey(x))))
    && (forall t, k :: Holds(a, t, k) ==> Holds(b, t, k))
  }

  ghost predicate Evolves(a: seq<Section>, b: seq<Section>, promotable: set<nat>) {
    SameBody(a, b) && OnlyPromotes(a, b, promotable)
  }

  lemma EvolvesTrans(a: seq<Section>, b: seq<Section>, c: seq<Section>, promotable: set<nat>)
    requires Evolves(a, b, promotable) && Evolves(b, c, promotable)
    ensures Evolves(a, c, promotable)
  {
    forall t | !Blank(t) ensures InBody(a, t) <==> InBody(c, t) {
      assert InBody(a, t) <==> InBody(b, t);
    }
    forall h, t, x | ReleasedItem(a, h, t, x)
      ensures ReleasedItem(c, h, t, x) || (Start(x) in promotable && Holds(c, t, ItemKey(x)))
    {
      if !ReleasedItem(b, h, t, x) { assert Holds(b, t, ItemKey(x)); }
    }
  }

  // ---- what is kept of every section ----

  predicate ReadableSub(sub: Subsection) { GoodTitle(sub.title) && GoodLines(Texts(sub.lines)) }

  predicate Sound(s: Section) {
    && Titled(s) && IsReleaseHeading(s.heading) && Plain(s.heading) && GoodLines(Texts(s.leading))
    && (forall j :: 0 <= j < |s.subsections| ==> ReadableSub(s.subsections[j]))
    && (s.title != P.UNRELEASED ==> AllRising(s))
  }

  predicate AllSound(sections: seq<Section>) {
    forall i :: 0 <= i < |sections| ==> Sound(sections[i])
  }

  // ---- one subsection of one section ----

  function With(s: Section, j: nat, sub: Subsection): Section
    requires j < |s.subsections|
  {
    s.(subsections := s.subsections[j := sub])
  }

  lemma TakenItems(s: Section, j: nat, left: Subsection, items: seq<ParsedItem>, promotable: set<nat>, t: string,
                   x: Item)
    requires j < |s.subsections| && P.Taken(s.subsections[j], left, items, promotable)
    ensures SectionItem(With(s, j, left), t, x) ==> SectionItem(s, t, x)
    ensures (SectionItem(s, t, x) && !SectionItem(With(s, j, left), t, x)) ==>
              t == left.title && Start(x) in promotable && P.IsKeyOf(items, ItemKey(x))
  {
    var s', sub := With(s, j, left), s.subsections[j];
    var all, chosen := NumberedItemsOf(sub.lines), P.Promoted(promotable);
    SelectMembers(all, chosen);
    SelectMembers(all, Not(chosen));
    if SectionItem(s', t, x) {
      var k :| 0 <= k < |s'.subsections| && s'.subsections[k].title == t
               && x in NumberedItemsOf(s'.subsections[k].lines);
      assert s.subsections[k].title == t && x in NumberedItemsOf(s.subsections[k].lines);
    }
    if SectionItem(s, t, x) {
      var k :| 0 <= k < |s.subsections| && s.subsections[k].title == t && x in NumberedItemsOf(s.subsections[k].lines);
      if k != j || !chosen(x) {
        assert s'.subsections[k].title == t && x in NumberedItemsOf(s'.subsections[k].lines);
      } else {
        var picked := Select(all, chosen);
        var i :| 0 <= i < |picked| && picked[i] == x;
        assert items[i].lines == ItemKey(x);
      }
    }
  }

  lemma TakenText(s: Section, j: nat, left: Subsection, items: seq<ParsedItem>, promotable: set<nat>, t: string)
    requires j < |s.subsections| && P.Taken(s.subsections[j], left, items, promotable) && !Blank(t)
    ensures SectionText(s, t) <==> SectionText(With(s, j, left), t) || P.InItems(items, t)
  {
    var s' := With(s, j, left);
    if SectionText(s, t) && t !in Texts(s.leading) {
      var k :| 0 <= k < |s.subsections| && t in Texts(s.subsections[k].lines);
      assert k != j ==> s'.subsections[k] == s.subsections[k];
      assert k == j ==> t in Texts(s'.subsections[j].lines) || P.InItems(items, t);
    }
    if SectionText(s', t) && t !in Texts(s.leading) {
      var k :| 0 <= k < |s'.subsections| && t in Texts(s'.subsections[k].lines);
      assert t in Texts(s.subsections[k].lines);
    }
    if P.InItems(items, t) { assert t in Texts(s.subsections[j].lines); }
  }

  lemma FilledHolds(s: Section, j: nat, filled: Subsection, items: seq<ParsedItem>, t: string, k: Key)
    requires j < |s.subsections| && P.Filled(s.subsections[j], filled, items)
    ensures SectionHolds(With(s, j, filled), t, k) <==>
            SectionHolds(s, t, k) || (t == filled.title && P.IsKeyOf(items, k))
  {
    var s' := With(s, j, filled);
    if SectionHolds(s, t, k) {
      var i :| 0 <= i < |s.subsections| && s.subsections[i].title == t && k in Keys(Texts(s.subsections[i].lines));
      assert s'.subsections[i].title == t && k in Keys(Texts(s'.subsections[i].lines));
    }
    if t == filled.title && P.IsKeyOf(items, k) {
      assert s'.subsections[j].title == t && k in Keys(Texts(s'.subsections[j].lines));
    }
    if SectionHolds(s', t, k) {
      var i :| 0 <= i < |s'.subsections| && s'.subsections[i].title == t && k in Keys(Texts(s'.subsections[i].lines));
      if i != j { assert s.subsections[i].title == t && k in Keys(Texts(s.subsections[i].lines)); }
      else if k in Keys(Texts(s.subsections[j].lines)) { assert s.subsections[j].title == t; }
    }
  }

  lemma FilledText(s: Section, j: nat, filled: Subsection, items: seq<ParsedItem>, t: string)
    requires j < |s.subsections| && P.Filled(s.subsections[j], filled, items) && !Blank(t)
    ensures SectionText(With(s, j, filled), t) <==> SectionText(s, t) || P.InItems(items, t)
  {
    var s' := With(s, j, filled);
    if SectionText(s, t) && t !in Texts(s.leading) {
      var k :| 0 <= k < |s.subsections| && t in Texts(s.subsections[k].lines);
      assert t in Texts(s'.subsections[k].lines);
    }
    if P.InItems(items, t) { assert t in Texts(s'.subsections[j].lines); }
    if SectionText(s', t) && t !in Texts(s.leading) {
      var k :| 0 <= k < |s'.subsections| && t in Texts(s'.subsections[k].lines);
      if k != j { assert t in Texts(s.subsections[k].lines); }
    }
  }

  // ---- the transfer from one section to another ----

  function Transfer(sections: seq<Section>, at: nat, j: nat, left: Subsection, u: nat, t: nat,
                    filled: Subsection): seq<Section>
    requires at < |sections| && u < |sections| && j < |sections[at].subsections| && t < |sections[u].subsections|
  {
    sections[at := With(sections[at], j, left)][u := With(sections[u], t, filled)]
  }

  /** The two halves fit: `items` leave a released section and arrive in Unreleased, under the same title. */
  ghost predicate Transferable(sections: seq<Section>, at: nat, j: nat, left: Subsection, u: nat, t: nat,
                               filled: Subsection, items: seq<ParsedItem>, promotable: set<nat>) {
    && at < |sections| && u < |sections| && j < |sections[at].subsections| && t < |sections[u].subsections|
    && sections[at].title != P.UNRELEASED && sections[u].title == P.UNRELEASED
    && P.Taken(sections[at].subsections[j], left, items, promotable)
    && P.Filled(sections[u].subsections[t], filled, items) && filled.title == left.title
  }

  lemma TransferKeepsBody(sections: seq<Section>, at: nat, j: nat, left: Subsection, u: nat, t: nat, filled: Subsection,
                          items: seq<ParsedItem>, promotable: set<nat>)
    requires Transferable(sections, at, j, left, u, t, filled, items, promotable)
    ensures SameBody(sections, Transfer(sections, at, j, left, u, t, filled))
  {
    var after := Transfer(sections, at, j, left, u, t, filled);
    forall x | !Blank(x) ensures InBody(sections, x) <==> InBody(after, x) {
      TakenText(sections[at], j, left, items, promotable, x);
      FilledText(sections[u], t, filled, items, x);
      if InBody(sections, x) {
        var i :| 0 <= i < |sections| && SectionText(sections[i], x);
        assert SectionText(after[i], x) || (i == at && SectionText(after[u], x));
      }
      if InBody(after, x) {
        var i :| 0 <= i < |after| && SectionText(after[i], x);
        assert SectionText(sections[i], x) || (i == u && SectionText(sections[at], x));
      }
    }
  }

  lemma TransferPromotes(sections: seq<Section>, at: nat, j: nat, left: Subsection, u: nat, t: nat, filled: Subsection,
                         items: seq<ParsedItem>, promotable: set<nat>)
    requires Transferable(sections, at, j, left, u, t, filled, items, promotable)
    ensures OnlyPromotes(sections, Transfer(sections, at, j, left, u, t, filled), promotable)
  {
    var after := Transfer(sections, at, j, left, u, t, filled);
    forall h, title, x | ReleasedItem(after, h, title, x) ensures ReleasedItem(sections, h, title, x) {
      var i :| 0 <= i < |after| && after[i].title != P.UNRELEASED && after[i].heading == h
               && SectionItem(after[i], title, x);
      if i == at { TakenItems(sections[at], j, left, items, promotable, title, x); }
      assert SectionItem(sections[i], title, x);
    }
    forall h, title, x | ReleasedItem(sections, h, title, x)
      ensures ReleasedItem(after, h, title, x) || (Start(x) in promotable && Holds(after, title, ItemKey(x)))
    {
      var i :| 0 <= i < |sections| && sections[i].title != P.UNRELEASED && sections[i].heading == h
               && SectionItem(sections[i], title, x);
      if i == at { TakenItems(sections[at], j, left, items, promotable, title, x); }
      if SectionItem(after[i], title, x) {
        assert ReleasedItem(after, h, title, x);
      } else {
        FilledHolds(sections[u], t, filled, items, title, ItemKey(x));
        assert SectionHolds(after[u], title, ItemKey(x));
      }
    }
    forall title, k | Holds(sections, title, k) ensures Holds(after, title, k) {
      var i :| 0 <= i < |sections| && sections[i].title == P.UNRELEASED && SectionHolds(sections[i], title, k);
      if i == u { FilledHolds(sections[u], t, filled, items, title, k); }
      assert SectionHolds(after[i], title, k);
    }
  }

  // ---- making sure there is somewhere to put them ----

  const NEW_UNRELEASED := Section("## [Unreleased]", P.UNRELEASED, [], [])

  lemma {:induction false} CloseAt(line: string, k: nat, e: nat)
    requires k <= e < |line| && line[e] == ']' && forall i :: k <= i < e ==> line[i] != ']'
    ensures CloseFrom(line, k) == e
    decreases e - k
  {
    if k < e { CloseAt(line, k + 1, e); }
  }

  lemma UnreleasedHeading(h: string)
    requires h == "## [Unreleased]"
    ensures IsReleaseHeading(h) && ReleaseTitle(h) == P.UNRELEASED && Plain(h)
  {
    CloseAt(h, 4, 14);
    assert h[4..14] == P.UNRELEASED;
  }

  lemma NewUnreleasedIsSound()
    ensures Sound(NEW_UNRELEASED)
  {
    UnreleasedHeading(NEW_UNRELEASED.heading);
  }

  lemma UnshiftEvolves(sections: seq<Section>, promotable: set<nat>)
    ensures Evolves(sections, [NEW_UNRELEASED] + sections, promotable)
  {
    var after := [NEW_UNRELEASED] + sections;
    assert forall i :: 0 <= i < |sections| ==> after[i + 1] == sections[i];
    forall t | InBody(sections, t) ensures InBody(after, t) {
      var i :| 0 <= i < |sections| && SectionText(sections[i], t);
      assert SectionText(after[i + 1], t);
    }
    forall t | InBody(after, t) ensures InBody(sections, t) {
      var i :| 0 <= i < |after| && SectionText(after[i], t);
      assert SectionText(sections[i - 1], t);
    }
    forall h, t, x | ReleasedItem(after, h, t, x) ensures ReleasedItem(sections, h, t, x) {
      var i :| 0 <= i < |after| && after[i].title != P.UNRELEASED && after[i].heading == h
               && SectionItem(after[i], t, x);
      assert SectionItem(sections[i - 1], t, x);
    }
    forall h, t, x | ReleasedItem(sections, h, t, x) ensures ReleasedItem(after, h, t, x) {
      var i :| 0 <= i < |sections| && sections[i].title != P.UNRELEASED && sections[i].heading == h
               && SectionItem(sections[i], t, x);
      assert SectionItem(after[i + 1], t, x);
    }
    forall t, k | Holds(sections, t, k) ensures Holds(after, t, k) {
      var i :| 0 <= i < |sections| && sections[i].title == P.UNRELEASED && SectionHolds(sections[i], t, k);
      assert SectionHolds(after[i + 1], t, k);
    }
  }

  function WithNew(s: Section, title: string): Section {
    s.(subsections := s.subsections + [Subsection(title, [])])
  }

  lemma PushText(s: Section, title: string, t: string)
    ensures SectionText(s, t) <==> SectionText(WithNew(s, title), t)
  {
    var s' := WithNew(s, title);
    assert forall j :: 0 <= j < |s.subsections| ==> s'.subsections[j] == s.subsections[j];
    if SectionText(s, t) && t !in Texts(s.leading) {
      var j :| 0 <= j < |s.subsections| && t in Texts(s.subsections[j].lines);
      assert t in Texts(s'.subsections[j].lines);
    }
  }

  lemma PushHolds(s: Section, title: string, t: string, k: Key)
    ensures SectionHolds(s, t, k) ==> SectionHolds(WithNew(s, title), t, k)
  {
    var s' := WithNew(s, title);
    if SectionHolds(s, t, k) {
      var j :| 0 <= j < |s.subsections| && s.subsections[j].title == t && k in Keys(Texts(s.subsections[j].lines));
      assert s'.subsections[j].title == t && k in Keys(Texts(s'.subsections[j].lines));
    }
  }

  lemma PushEvolves(sections: seq<Section>, u: nat, title: string, promotable: set<nat>)
    requires u < |sections| && sections[u].title == P.UNRELEASED
    ensures Evolves(sections, sections[u := WithNew(sections[u], title)], promotable)
  {
    var after := sections[u := WithNew(sections[u], title)];
    forall t ensures InBody(sections, t) <==> InBody(after, t) {
      PushText(sections[u], title, t);
      if InBody(sections, t) {
        var i :| 0 <= i < |sections| && SectionText(sections[i], t);
        assert SectionText(after[i], t);
      }
      if InBody(after, t) {
        var i :| 0 <= i < |after| && SectionText(after[i], t);
        assert SectionText(sections[i], t);
      }
    }
    forall h, t, x ensures ReleasedItem(sections, h, t, x) <==> ReleasedItem(after, h, t, x) {
      assert forall i :: 0 <= i < |sections| && i != u ==> after[i] == sections[i];
    }
    forall t, k | Holds(sections, t, k) ensures Holds(after, t, k) {
      PushHolds(sections[u], title, t, k);
      var i :| 0 <= i < |sections| && sections[i].title == P.UNRELEASED && SectionHolds(sections[i], t, k);
      assert SectionHolds(after[i], t, k);
    }
  }

  /** The last subsection with this title, if there is one. */
  method FindLast(s: Section, title: string) returns (t: int)
    ensures -1 <= t < |s.subsections| && (t >= 0 ==> s.subsections[t].title == title)
    ensures forall j :: t < j < |s.subsections| ==> s.subsections[j].title != title
  {
    t := |s.subsections| - 1;
    while t >= 0 && s.subsections[t].title != title
      invariant -1 <= t < |s.subsections|
      invariant forall j :: t < j < |s.subsections| ==> s.subsections[j].title != title
    {
      t := t - 1;
    }
  }

  /** `u` is where the first Unreleased section is, and negative as long as there is none. */
  predicate Known(sections: seq<Section>, u: int) {
    if u < 0 then forall i :: 0 <= i < |sections| ==> sections[i].title != P.UNRELEASED
    else u < |sections| && sections[u].title == P.UNRELEASED
         && forall i :: 0 <= i < u ==> sections[i].title != P.UNRELEASED
  }

  // ---- one move, in terms of what the sections hold ----

  function BoardOf(subs: seq<Subsection>): (r: seq<Slot>)
    ensures |r| == |subs|
    ensures forall j :: 0 <= j < |r| ==> r[j] == Slot(subs[j].title, Keys(Texts(subs[j].lines)))
  {
    seq(|subs|, j requires 0 <= j < |subs| => Slot(subs[j].title, Keys(Texts(subs[j].lines))))
  }

  /** The section to promote into: the first Unreleased one, or a new one. */
  function Home(sections: seq<Section>, u0: int): Section
    requires u0 < |sections|
  {
    if u0 < 0 then NEW_UNRELEASED else sections[u0]
  }

  /** What is left of a section once its first `n` categories have given up their promotable items. */
  predicate Emptied(before: Section, after: Section, n: nat, promotable: set<nat>) {
    && after == before.(subsections := after.subsections) && |after.subsections| == |before.subsections|
    && forall k :: 0 <= k < |before.subsections| ==>
         after.subsections[k] == if k < n then P.LeftOf(before.subsections[k], promotable) else before.subsections[k]
  }

  /** The sections with a home section: in its place, or in front. */
  function Placed(sections: seq<Section>, u0: int, home: Section): seq<Section>
    requires u0 < |sections|
  {
    if u0 < 0 then [home] + sections else sections[u0 := home]
  }

  /** The section at `at` without the promotable items of one category. */
  function Spared(sections: seq<Section>, at: nat, j: nat, promotable: set<nat>): seq<Section>
    requires at < |sections| && j < |sections[at].subsections|
  {
    sections[at := With(sections[at], j, P.LeftOf(sections[at].subsections[j], promotable))]
  }

  /** `after` is the section `before` with these items put into it. */
  ghost predicate Receives(before: Section, title: string, keys: seq<Key>, after: Section) {
    after == before.(subsections := after.subsections)
    && PutOn(BoardOf(before.subsections), title, keys, BoardOf(after.subsections))
  }

  /** The items of one category have moved: they left it, and were put into the home section. */
  ghost predicate Moves(before: seq<Section>, after: seq<Section>, at: nat, j: nat, u0: int, u: int, home: Section,
                        promotable: set<nat>)
    requires at < |before| && j < |before[at].subsections| && u0 < |before|
  {
    var sub := before[at].subsections[j];
    var items := P.PickedOf(sub, promotable);
    if items == [] then after == before && u == u0
    else
      && u == (if u0 < 0 then 0 else u0)
      && Receives(Home(before, u0), sub.title, P.KeysOfItems(items), home)
      && after == Placed(Spared(before, at, j, promotable), u0, home)
  }

  /** A target category: the last one of its title, perhaps just put at the end. */
  predicate Targeted(subs: seq<Subsection>, title: string, more: seq<Subsection>, t: nat) {
    && t < |more| && more[t].title == title && (forall j :: t < j < |more| ==> more[j].title != title)
    && (more == subs
        || (more == subs + [Subsection(title, [])] && t == |subs|
            && forall j :: 0 <= j < |subs| ==> subs[j].title != title))
  }

  lemma TargetGains(subs: seq<Subsection>, title: string, more: seq<Subsection>, t: nat, filled: Subsection,
                    items: seq<ParsedItem>)
    requires Targeted(subs, title, more, t) && P.Filled(more[t], filled, items)
    ensures PutOn(BoardOf(subs), title, P.KeysOfItems(items), BoardOf(more[t := filled]))
  {
    var before, after := BoardOf(subs), BoardOf(more[t := filled]);
    if more == subs {
      assert before[t].title == title && IsLast(before, t);
      assert forall j :: 0 <= j < |before| && j != t ==> after[j] == before[j];
      assert Gains(before[t].keys, P.KeysOfItems(items), after[t].keys);
    } else {
      assert !HasTitle(before, title);
      assert Texts([]) == [] && Keys([]) == [];
      assert after[..|before|] == before;
    }
  }

  method EnsureTarget(before: seq<Section>, u0: int, title: string, ghost promotable: set<nat>)
    returns (sections: seq<Section>, u: nat, t: nat)
    requires AllSound(before) && Known(before, u0) && GoodTitle(title)
    ensures AllSound(sections) && Evolves(before, sections, promotable)
    ensures u == (if u0 < 0 then 0 else u0) && u < |sections|
    ensures sections == Placed(before, u0, sections[u])
    ensures sections[u] == Home(before, u0).(subsections := sections[u].subsections)
    ensures Targeted(Home(before, u0).subsections, title, sections[u].subsections, t)
  {
    sections := before;
    if u0 < 0 {
      NewUnreleasedIsSound();
      UnshiftEvolves(before, promotable);
      sections, u := [NEW_UNRELEASED] + before, 0;
    } else {
      u := u0;
    }
    ghost var mid := sections;
    var last := FindLast(sections[u], title);
    if last >= 0 {
      t := last;
    } else {
      PushEvolves(sections, u, title, promotable);
      t := |sections[u].subsections|;
      sections := sections[u := WithNew(sections[u], title)];
      PushIsSound(mid[u], title);
      EvolvesTrans(before, mid, sections, promotable);
    }
  }

  lemma PushIsSound(s: Section, title: string)
    requires Sound(s) && s.title == P.UNRELEASED && GoodTitle(title)
    ensures Sound(WithNew(s, title))
  {
    assert Texts([]) == [];
  }

  // ---- the loops ----

  lemma TransferIsSound(sections: seq<Section>, at: nat, j: nat, left: Subsection, u: nat, t: nat, filled: Subsection,
                        items: seq<ParsedItem>, promotable: set<nat>)
    requires AllSound(sections) && Transferable(sections, at, j, left, u, t, filled, items, promotable)
    ensures AllSound(Transfer(sections, at, j, left, u, t, filled))
  {
    var sub, target := sections[at].subsections[j], sections[u].subsections[t];
    assert Sound(sections[at]) && Sound(sections[u]);
    LeftIsReadable(sub, left, items, promotable);
    FilledIsReadable(sub, left, target, filled, items, promotable);
  }

  lemma LeftIsReadable(sub: Subsection, left: Subsection, items: seq<ParsedItem>, promotable: set<nat>)
    requires ReadableSub(sub) && P.Taken(sub, left, items, promotable)
    ensures ReadableSub(left)
  {
    forall x | x in Texts(left.lines) ensures BodyLine(x) {
      P.TextsMember(left.lines, x);
      P.TextsMember(sub.lines, x);
    }
  }

  lemma FilledIsReadable(sub: Subsection, left: Subsection, target: Subsection, filled: Subsection,
                         items: seq<ParsedItem>, promotable: set<nat>)
    requires ReadableSub(sub) && P.Taken(sub, left, items, promotable)
    requires ReadableSub(target) && P.Filled(target, filled, items)
    ensures ReadableSub(filled)
  {
    assert BodyLine("");
    forall x | x in Texts(filled.lines) ensures BodyLine(x) {
      if P.InItems(items, x) { ItemTextsAreLines(sub, left, items, promotable, x); }
    }
  }

  lemma ItemTextsAreLines(sub: Subsection, left: Subsection, items: seq<ParsedItem>, promotable: set<nat>, x: string)
    requires P.Taken(sub, left, items, promotable) && P.InItems(items, x)
    ensures x in Texts(sub.lines)
  {
    var picked := Select(NumberedItemsOf(sub.lines), P.Promoted(promotable));
    SelectMembers(NumberedItemsOf(sub.lines), P.Promoted(promotable));
    var k :| 0 <= k < |items| && x in items[k].lines;
    assert picked[k] in picked;
    ItemKeyTexts(sub.lines, picked[k], x);
  }

  lemma ItemKeyTexts(lines: seq<NumberedLine>, b: Item, x: string)
    requires b in NumberedItemsOf(lines) && x in ItemKey(b)
    ensures x in Texts(lines)
  {
    P.ItemKeyIsGood(lines, b);
    P.KeyTexts(Texts(lines), ItemKey(b), x);
  }

  lemma TakenKeysAreGood(sub: Subsection, left: Subsection, items: seq<ParsedItem>, promotable: set<nat>)
    requires P.Taken(sub, left, items, promotable)
    ensures forall i :: 0 <= i < |items| ==> GoodKey(items[i].lines)
  {
    var picked := Select(NumberedItemsOf(sub.lines), P.Promoted(promotable));
    SelectMembers(NumberedItemsOf(sub.lines), P.Promoted(promotable));
    forall i | 0 <= i < |items| ensures GoodKey(items[i].lines) {
      assert picked[i] in picked;
      P.ItemKeyIsGood(sub.lines, picked[i]);
    }
  }

  /** The new list of sections, and where the first Unreleased one is in it. */
  lemma TransferMoves(before: seq<Section>, target: Section, at: nat, j: nat, u0: int, t: nat, left: Subsection,
                      filled: Subsection, promotable: set<nat>)
    requires Known(before, u0) && at < |before| && before[at].title != P.UNRELEASED && target.title == P.UNRELEASED
    requires j < |before[at].subsections| && t < |target.subsections|
    requires left == P.LeftOf(before[at].subsections[j], promotable)
    ensures var u, pos := if u0 < 0 then 0 else u0, if u0 < 0 then at + 1 else at;
      var mid := Placed(before, u0, target);
      && mid[pos] == before[at] && mid[u] == target
      && Transfer(mid, pos, j, left, u, t, filled)
           == Placed(Spared(before, at, j, promotable), u0, With(target, t, filled))
      && Known(Transfer(mid, pos, j, left, u, t, filled), u)
  {
    var x := With(before[at], j, left);
    var home := With(target, t, filled);
    if u0 < 0 {
      assert ([target] + before)[at + 1 := x][0 := home] == [home] + before[at := x];
    } else {
      assert before[u0 := target][at := x][u0 := home] == before[at := x][u0 := home];
    }
  }

  /** One subsection of one released section: the section list may grow at the front. */
  method PromoteSubsection(before: seq<Section>, at: nat, j: nat, u0: int, promotable: set<nat>)
    returns (sections: seq<Section>, u: int, ghost home: Section)
    requires AllSound(before) && Known(before, u0)
    requires at < |before| && j < |before[at].subsections| && before[at].title != P.UNRELEASED
    ensures AllSound(sections) && Known(sections, u) && Evolves(before, sections, promotable)
    ensures Moves(before, sections, at, j, u0, u, home, promotable)
    ensures promotable == {} ==> sections == before
  {
    var sub := before[at].subsections[j];
    assert Sound(before[at]) && ReadableSub(sub);
    var left, items := P.TakeItems(sub, promotable);
    NothingWithoutPromotables(sub, left, items, promotable);
    if items == [] {
      sections, u, home := before, u0, NEW_UNRELEASED;
      EvolvesRefl(before, promotable);
      return;
    }
    sections, u, home := Move(before, at, j, u0, promotable, sub, left, items);
  }

  lemma NothingWithoutPromotables(sub: Subsection, left: Subsection, items: seq<ParsedItem>, promotable: set<nat>)
    requires P.Taken(sub, left, items, promotable)
    ensures promotable == {} ==> items == []
  {
    var picked := Select(NumberedItemsOf(sub.lines), P.Promoted(promotable));
    SelectMembers(NumberedItemsOf(sub.lines), P.Promoted(promotable));
    if picked != [] { assert picked[0] in picked; }
  }

  /** The items arrive in their target. */
  method Arrive(mid: seq<Section>, pos: nat, j: nat, left: Subsection, u: nat, t: nat, items: seq<ParsedItem>,
                ghost promotable: set<nat>)
    returns (after: seq<Section>, ghost filled: Subsection)
    requires AllSound(mid) && pos < |mid| && u < |mid| && j < |mid[pos].subsections| && t < |mid[u].subsections|
    requires mid[pos].title != P.UNRELEASED && mid[u].title == P.UNRELEASED
    requires P.Taken(mid[pos].subsections[j], left, items, promotable) && mid[u].subsections[t].title == left.title
    ensures AllSound(after) && Evolves(mid, after, promotable)
    ensures after == Transfer(mid, pos, j, left, u, t, filled) && P.Filled(mid[u].subsections[t], filled, items)
  {
    TakenKeysAreGood(mid[pos].subsections[j], left, items, promotable);
    var full := P.PutItems(mid[u].subsections[t], items);
    TransferPromotes(mid, pos, j, left, u, t, full, items, promotable);
    TransferKeepsBody(mid, pos, j, left, u, t, full, items, promotable);
    TransferIsSound(mid, pos, j, left, u, t, full, items, promotable);
    filled := full;
    after := Transfer(mid, pos, j, left, u, t, full);
  }

  lemma SubIsReadable(sections: seq<Section>, at: nat, j: nat)
    requires AllSound(sections) && at < |sections| && j < |sections[at].subsections|
    ensures ReadableSub(sections[at].subsections[j])
  {
    assert Sound(sections[at]);
  }

  /** The items leave their category and arrive in a target, which is made if there is none. */
  method Deliver(before: seq<Section>, at: nat, j: nat, u0: int, ghost promotable: set<nat>, sub: Subsection,
                 left: Subsection, items: seq<ParsedItem>)
    returns (sections: seq<Section>, ghost target: Section, ghost t: nat, ghost filled: Subsection)
    requires AllSound(before) && Known(before, u0)
    requires at < |before| && j < |before[at].subsections| && before[at].title != P.UNRELEASED
    requires sub == before[at].subsections[j] && P.Taken(sub, left, items, promotable)
    ensures AllSound(sections) && Evolves(before, sections, promotable)
    ensures target == Home(before, u0).(subsections := target.subsections)
    ensures Targeted(Home(before, u0).subsections, sub.title, target.subsections, t)
    ensures P.Filled(target.subsections[t], filled, items)
    ensures var u, pos := if u0 < 0 then 0 else u0, if u0 < 0 then at + 1 else at;
      sections == Transfer(Placed(before, u0, target), pos, j, left, u, t, filled)
  {
    SubIsReadable(before, at, j);
    var mid, unr, place := EnsureTarget(before, u0, sub.title, promotable);
    var pos := if u0 < 0 then at + 1 else at;
    target, t := mid[unr], place;
    sections, filled := Arrive(mid, pos, j, left, unr, place, items, promotable);
    EvolvesTrans(before, mid, sections, promotable);
  }

  method Move(before: seq<Section>, at: nat, j: nat, u0: int, ghost promotable: set<nat>, sub: Subsection,
              left: Subsection, items: seq<ParsedItem>)
    returns (sections: seq<Section>, u: int, ghost home: Section)
    requires AllSound(before) && Known(before, u0)
    requires at < |before| && j < |before[at].subsections| && before[at].title != P.UNRELEASED
    requires sub == before[at].subsections[j] && P.Taken(sub, left, items, promotable) && items != []
    ensures AllSound(sections) && Known(sections, u) && Evolves(before, sections, promotable)
    ensures Moves(before, sections, at, j, u0, u, home, promotable)
  {
    ghost var target, t, filled;
    sections, target, t, filled := Deliver(before, at, j, u0, promotable, sub, left, items);
    u := if u0 < 0 then 0 else u0;
    home := With(target, t, filled);
    ItemsMoved(before, target, at, j, u0, t, left, filled, items, promotable);
  }

  lemma ItemsMoved(before: seq<Section>, target: Section, at: nat, j: nat, u0: int, t: nat, left: Subsection,
                   filled: Subsection, items: seq<ParsedItem>, promotable: set<nat>)
    requires Known(before, u0) && at < |before| && before[at].title != P.UNRELEASED
    requires j < |before[at].subsections| && P.Taken(before[at].subsections[j], left, items, promotable) && items != []
    requires target == Home(before, u0).(subsections := target.subsections)
    requires Targeted(Home(before, u0).subsections, before[at].subsections[j].title, target.subsections, t)
    requires P.Filled(target.subsections[t], filled, items)
    ensures var u, pos := if u0 < 0 then 0 else u0, if u0 < 0 then at + 1 else at;
      var after := Transfer(Placed(before, u0, target), pos, j, left, u, t, filled);
      Moves(before, after, at, j, u0, u, With(target, t, filled), promotable) && Known(after, u)
  {
    TransferMoves(before, target, at, j, u0, t, left, filled, promotable);
    TargetGains(Home(before, u0).subsections, before[at].subsections[j].title, target.subsections, t, filled, items);
  }

  lemma EvolvesRefl(sections: seq<Section>, promotable: set<nat>)
    ensures Evolves(sections, sections, promotable)
  {
  }
}
