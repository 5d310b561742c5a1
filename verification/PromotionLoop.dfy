/** The loop over all released sections, while the list of sections may grow under it: exactly which items
    leave, and where they arrive. */
module PromotionLoop {
  import opened Cutting
  import opened ChangelogDocument
  import opened ChangelogItems
  import opened NumberedItems
  import opened Sifting
  import opened Boards
  import opened PromotionRun
  import P = Promotion

  // ---- what moves ----

  /** The batches that the first `n` categories give up; a category without promotable items gives none. */
  function BatchesOf(subs: seq<Subsection>, n: nat, promotable: set<nat>): seq<Batch>
    requires n <= |subs|
  {
    if n == 0 then []
    else
      var items := P.PickedOf(subs[n - 1], promotable);
      BatchesOf(subs, n - 1, promotable)
        + if items == [] then [] else [Batch(subs[n - 1].title, P.KeysOfItems(items))]
  }

  /** The batches of the first `n` sections, Unreleased ones giving none. */
  function Batches(sections: seq<Section>, n: nat, promotable: set<nat>): seq<Batch>
    requires n <= |sections|
  {
    if n == 0 then []
    else
      var s := sections[n - 1];
      Batches(sections, n - 1, promotable)
        + if s.title == P.UNRELEASED then [] else BatchesOf(s.subsections, |s.subsections|, promotable)
  }

  /** The home section: the batches have been put into it, and nothing else changed in it. */
  ghost predicate Gathered(start: Section, batches: seq<Batch>, home: Section) {
    && home == start.(subsections := home.subsections)
    && BoardAfter(BoardOf(start.subsections), batches, BoardOf(home.subsections))
    && (batches == [] ==> home == start)
  }

  /** How many categories of section `k` are done when `d` sections and `j` categories of the next are. */
  function Done(before: seq<Section>, d: nat, j: nat, k: nat): nat
    requires k < |before|
  {
    if k < d then |before[k].subsections| else if k == d then j else 0
  }

  /** A released section has given up the promotable items of its first `n` categories; any other Unreleased section
      but the home section stays as it is. */
  ghost predicate StandsAs(before: seq<Section>, rest: seq<Section>, u0: int, home: Section, k: nat, n: nat,
                           promotable: set<nat>)
    requires k < |before| == |rest|
  {
    if before[k].title != P.UNRELEASED then Emptied(before[k], rest[k], n, promotable)
    else if k == u0 then rest[k] == home
    else rest[k] == before[k]
  }

  ghost predicate AllStand(before: seq<Section>, rest: seq<Section>, u0: int, home: Section, d: nat, j: nat,
                           promotable: set<nat>) {
    |rest| == |before| &&
    forall k :: 0 <= k < |before| ==> StandsAs(before, rest, u0, home, k, Done(before, d, j, k), promotable)
  }

  /** The sections are the `rest`, behind the home section if that is new. */
  ghost predicate Progress(before: seq<Section>, u0: int, sections: seq<Section>, u: int, rest: seq<Section>,
                           home: Section, d: nat, j: nat, promotable: set<nat>, batches: seq<Batch>) {
    && Known(before, u0) && Gathered(Home(before, u0), batches, home)
    && AllStand(before, rest, u0, home, d, j, promotable)
    && (if u0 < 0 && batches != [] then u == 0 && sections == [home] + rest else u == u0 && sections == rest)
  }

  /** What the whole loop does. */
  ghost predicate Promotes(before: seq<Section>, after: seq<Section>, promotable: set<nat>) {
    exists u0, u, rest, home ::
      Progress(before, u0, after, u, rest, home, |before|, 0, promotable, Batches(before, |before|, promotable))
  }

  // ---- one category ----

  lemma {:induction false} NothingSelected(items: seq<Item>, chosen: Item -> bool)
    requires Select(items, chosen) == []
    ensures Select(items, Not(chosen)) == items
  {
    if items != [] {
      NothingSelected(items[1..], chosen);
      assert items == [items[0]] + items[1..];
    }
  }

  /** What is selected stands in the places that are chosen. */
  lemma {:induction false} SelectSifts(items: seq<Item>, chosen: Item -> bool) returns (p: seq<nat>)
    ensures Sifts(items, Select(items, chosen), p)
    ensures forall k: nat :: k < |items| ==> (k in p <==> chosen(items[k]))
  {
    p := [];
    if items != [] {
      var q := SelectSifts(items[1..], chosen);
      p := SiftFirst(items, Select(items[1..], chosen), q, chosen(items[0]));
      forall k: nat | k < |items| ensures k in p <==> chosen(items[k]) {
        if k > 0 { assert items[1..][k - 1] == items[k]; }
      }
    }
  }

  /** The items that leave a category are those that start on a promotable line, in their order. */
  lemma PickedArePromotable(sub: Subsection, promotable: set<nat>) returns (picked: seq<Item>, p: seq<nat>)
    ensures Sifts(NumberedItemsOf(sub.lines), picked, p)
    ensures forall k: nat :: k < |NumberedItemsOf(sub.lines)| ==>
              (k in p <==> NumberedItemsOf(sub.lines)[k].head.number in promotable)
    ensures P.PickedOf(sub, promotable) == Map(ToParsed, picked)
  {
    var items := NumberedItemsOf(sub.lines);
    picked := Select(items, P.Promoted(promotable));
    p := SelectSifts(items, P.Promoted(promotable));
    forall k: nat | k < |items| ensures k in p <==> items[k].head.number in promotable {
      assert P.Promoted(promotable)(items[k]) <==> Start(items[k]) in promotable;
    }
  }

  /** A category without promotable items is left as it was. */
  lemma NothingLeaves(sub: Subsection, promotable: set<nat>)
    requires P.PickedOf(sub, promotable) == []
    ensures P.LeftOf(sub, promotable) == sub
  {
    var c := Cut(OpensItem, sub.lines);
    NothingSelected(c.blocks, P.Promoted(promotable));
    CutWhole(OpensItem, sub.lines);
  }

  /** What is left holds no promotable item. */
  lemma LeftIsSpent(sub: Subsection, promotable: set<nat>)
    ensures NumberedItemsOf(P.LeftOf(sub, promotable).lines)
              == Select(NumberedItemsOf(sub.lines), Not(P.Promoted(promotable)))
    ensures P.PickedOf(P.LeftOf(sub, promotable), promotable) == []
  {
    var c, chosen := Cut(OpensItem, sub.lines), P.Promoted(promotable);
    var others := Select(c.blocks, Not(chosen));
    CutWhole(OpensItem, sub.lines);
    SelectMembers(c.blocks, Not(chosen));
    CutUnique(OpensItem, c.lead, others);
    SelectMembers(others, chosen);
    if Select(others, chosen) != [] { assert Select(others, chosen)[0] in Select(others, chosen); }
  }

  lemma EmptiedMore(before: Section, mid: Section, after: Section, j: nat, promotable: set<nat>)
    requires Emptied(before, mid, j, promotable) && j < |before.subsections|
    requires after == With(mid, j, P.LeftOf(mid.subsections[j], promotable))
    ensures Emptied(before, after, j + 1, promotable)
  {
  }

  lemma Skipped(before: Section, mid: Section, j: nat, promotable: set<nat>)
    requires Emptied(before, mid, j, promotable) && j < |before.subsections|
    requires P.PickedOf(mid.subsections[j], promotable) == []
    ensures Emptied(before, mid, j + 1, promotable)
  {
    NothingLeaves(mid.subsections[j], promotable);
  }

  // ---- one move ----

  /** Section `d` after one more of its categories, and the home section after one more batch. */
  lemma StandsMore(before: seq<Section>, u0: int, rest: seq<Section>, home: Section, home': Section, d: nat, j: nat,
                   k: nat, promotable: set<nat>, rest': seq<Section>)
    requires Known(before, u0) && |rest| == |before| && k < |before| && d < |before|
    requires before[d].title != P.UNRELEASED && j < |before[d].subsections|
    requires StandsAs(before, rest, u0, home, k, Done(before, d, j, k), promotable)
    requires Emptied(before[d], rest[d], j, promotable)
    requires rest' == var spared := Spared(rest, d, j, promotable); if u0 < 0 then spared else spared[u0 := home']
    ensures StandsAs(before, rest', u0, home', k, Done(before, d, j + 1, k), promotable)
  {
    if k == d { EmptiedMore(before[d], rest[d], rest'[d], j, promotable); }
  }

  lemma GatheredMore(start: Section, batches: seq<Batch>, home: Section, title: string, keys: seq<Key>,
                     home': Section)
    requires Gathered(start, batches, home) && Receives(home, title, keys, home')
    ensures Gathered(start, batches + [Batch(title, keys)], home')
  {
    BoardStep(BoardOf(start.subsections), batches, BoardOf(home.subsections), Batch(title, keys),
              BoardOf(home'.subsections));
  }

  /** Nothing moves: the category counts as done all the same. */
  lemma StandsSkipped(before: seq<Section>, u0: int, rest: seq<Section>, home: Section, d: nat, j: nat, k: nat,
                      promotable: set<nat>)
    requires |rest| == |before| && k < |before| && d < |before|
    requires before[d].title != P.UNRELEASED && j < |before[d].subsections|
    requires StandsAs(before, rest, u0, home, k, Done(before, d, j, k), promotable)
    requires Emptied(before[d], rest[d], j, promotable)
    requires P.PickedOf(before[d].subsections[j], promotable) == []
    ensures StandsAs(before, rest, u0, home, k, Done(before, d, j + 1, k), promotable)
  {
    if k == d { Skipped(before[d], rest[d], j, promotable); }
  }

  /** `Home` of the sections so far is the home section. */
  lemma HomeIs(before: seq<Section>, u0: int, sections: seq<Section>, u: int, rest: seq<Section>, home: Section,
               d: nat, j: nat, promotable: set<nat>, batches: seq<Batch>)
    requires Progress(before, u0, sections, u, rest, home, d, j, promotable, batches)
    ensures u < |sections| && Home(sections, u) == home
  {
    if 0 <= u0 { assert StandsAs(before, rest, u0, home, u0, Done(before, d, j, u0), promotable); }
  }

  /** One more category: where the sections are afterwards. */
  lemma PlacedMore(sections: seq<Section>, u0: int, u: int, rest: seq<Section>, home: Section, home': Section,
                   isNew: bool, pos: nat, d: nat, j: nat, promotable: set<nat>, after: seq<Section>)
    requires u0 < |rest| && u < |sections| && d < |rest| && (u0 >= 0 ==> !isNew)
    requires if isNew then u == 0 && pos == d + 1 && sections == [home] + rest
             else u == u0 && pos == d && sections == rest
    requires j < |rest[d].subsections| && sections[pos] == rest[d]
    requires after == Placed(Spared(sections, pos, j, promotable), u, home')
    ensures var spared := Spared(rest, d, j, promotable);
      after == if u0 < 0 then [home'] + spared else spared[u0 := home']
  {
    if isNew {
      var x := With(rest[d], j, P.LeftOf(rest[d].subsections[j], promotable));
      assert ([home] + rest)[d + 1 := x][0 := home'] == [home'] + rest[d := x];
    }
  }

  /** One more category is done. */
  lemma ProgressMore(before: seq<Section>, u0: int, sections: seq<Section>, u: int, rest: seq<Section>, home: Section,
                     pos: nat, d: nat, j: nat, promotable: set<nat>, batches: seq<Batch>, after: seq<Section>,
                     u': int, home': Section)
    returns (rest': seq<Section>, home'': Section)
    requires Progress(before, u0, sections, u, rest, home, d, j, promotable, batches)
    requires d < |before| && before[d].title != P.UNRELEASED && j < |before[d].subsections|
    requires pos < |sections| && sections[pos] == rest[d] && pos == d + (if u == u0 then 0 else 1)
    requires batches == Batches(before, d, promotable) + BatchesOf(before[d].subsections, j, promotable)
    requires j < |rest[d].subsections| && u < |sections| && Moves(sections, after, pos, j, u, u', home', promotable)
    ensures Progress(before, u0, after, u', rest', home'', d, j + 1, promotable,
                     Batches(before, d, promotable) + BatchesOf(before[d].subsections, j + 1, promotable))
  {
    assert StandsAs(before, rest, u0, home, d, Done(before, d, j, d), promotable);
    var sub := before[d].subsections[j];
    assert rest[d].subsections[j] == sub;
    var items := P.PickedOf(sub, promotable);
    BatchesMore(before, d, j, promotable, batches);
    var m := j + 1;
    if items == [] {
      rest', home'' := rest, home;
      forall k | 0 <= k < |before| ensures StandsAs(before, rest, u0, home, k, Done(before, d, m, k), promotable) {
        StandsSkipped(before, u0, rest, home, d, j, k, promotable);
      }
    } else {
      HomeIs(before, u0, sections, u, rest, home, d, j, promotable, batches);
      GatheredMore(Home(before, u0), batches, home, sub.title, P.KeysOfItems(items), home');
      PlacedMore(sections, u0, u, rest, home, home', u0 < 0 && batches != [], pos, d, j, promotable, after);
      var spared := Spared(rest, d, j, promotable);
      rest', home'' := if u0 < 0 then spared else spared[u0 := home'], home';
      forall k | 0 <= k < |before| ensures StandsAs(before, rest', u0, home', k, Done(before, d, m, k), promotable) {
        StandsMore(before, u0, rest, home, home', d, j, k, promotable, rest');
      }
    }
  }

  lemma BatchesMore(before: seq<Section>, d: nat, j: nat, promotable: set<nat>, batches: seq<Batch>)
    requires d < |before| && j < |before[d].subsections|
    requires batches == Batches(before, d, promotable) + BatchesOf(before[d].subsections, j, promotable)
    ensures var sub := before[d].subsections[j];
      var items := P.PickedOf(sub, promotable);
      Batches(before, d, promotable) + BatchesOf(before[d].subsections, j + 1, promotable)
        == if items == [] then batches else batches + [Batch(sub.title, P.KeysOfItems(items))]
  {
    var sub := before[d].subsections[j];
    var items := P.PickedOf(sub, promotable);
    if items == [] {
      assert BatchesOf(before[d].subsections, j, promotable) + [] == BatchesOf(before[d].subsections, j, promotable);
    }
  }

  // ---- the loops ----

  /** Where section `k` of those given stands now. */
  function Place(u0: int, u: int, k: nat): nat { if u == u0 then k else k + 1 }

  /** Sections keep their titles and the number of their categories. */
  lemma TitleStays(before: seq<Section>, u0: int, sections: seq<Section>, u: int, rest: seq<Section>, home: Section,
                   d: nat, j: nat, promotable: set<nat>, batches: seq<Batch>, k: nat)
    requires Progress(before, u0, sections, u, rest, home, d, j, promotable, batches) && k < |before|
    ensures Place(u0, u, k) < |sections| && sections[Place(u0, u, k)] == rest[k]
    ensures rest[k].title == P.UNRELEASED <==> before[k].title == P.UNRELEASED
    ensures before[k].title != P.UNRELEASED ==> Emptied(before[k], rest[k], Done(before, d, j, k), promotable)
  {
    assert StandsAs(before, rest, u0, home, k, Done(before, d, j, k), promotable);
  }

  /** When the categories of a section are done, so is the section; an Unreleased one has nothing to do. */
  lemma AllStandNext(before: seq<Section>, rest: seq<Section>, u0: int, home: Section, d: nat, j: nat,
                     promotable: set<nat>, n: nat)
    requires d < |before| && AllStand(before, rest, u0, home, d, j, promotable) && n == d + 1
    requires before[d].title == P.UNRELEASED || j == |before[d].subsections|
    ensures AllStand(before, rest, u0, home, n, 0, promotable)
  {
    forall k | 0 <= k < |before| ensures StandsAs(before, rest, u0, home, k, Done(before, n, 0, k), promotable) {
      assert StandsAs(before, rest, u0, home, k, Done(before, d, j, k), promotable);
    }
  }

  lemma BatchesNext(before: seq<Section>, d: nat, promotable: set<nat>, n: nat)
    requires d < |before| && n == d + 1
    ensures Batches(before, n, promotable) ==
      if before[d].title == P.UNRELEASED then Batches(before, d, promotable)
      else Batches(before, d, promotable) + BatchesOf(before[d].subsections, |before[d].subsections|, promotable)
  {
    assert Batches(before, d, promotable) + [] == Batches(before, d, promotable);
  }

  lemma BatchesStart(before: seq<Section>, d: nat, promotable: set<nat>)
    requires d < |before|
    ensures Batches(before, d, promotable) + BatchesOf(before[d].subsections, 0, promotable)
         == Batches(before, d, promotable)
  {
    assert BatchesOf(before[d].subsections, 0, promotable) == [];
  }

  lemma SectionDone(before: seq<Section>, u0: int, sections: seq<Section>, u: int, rest: seq<Section>, home: Section,
                    d: nat, j: nat, promotable: set<nat>, n: nat)
    requires d < |before| && before[d].title != P.UNRELEASED && j == |before[d].subsections| && n == d + 1
    requires Progress(before, u0, sections, u, rest, home, d, j, promotable,
                      Batches(before, d, promotable) + BatchesOf(before[d].subsections, j, promotable))
    ensures Progress(before, u0, sections, u, rest, home, n, 0, promotable, Batches(before, n, promotable))
  {
    AllStandNext(before, rest, u0, home, d, j, promotable, n);
    BatchesNext(before, d, promotable, n);
  }

  lemma SectionSkipped(before: seq<Section>, u0: int, sections: seq<Section>, u: int, rest: seq<Section>,
                       home: Section, d: nat, promotable: set<nat>, n: nat)
    requires d < |before| && before[d].title == P.UNRELEASED && n == d + 1
    requires Progress(before, u0, sections, u, rest, home, d, 0, promotable, Batches(before, d, promotable))
    ensures Progress(before, u0, sections, u, rest, home, n, 0, promotable, Batches(before, n, promotable))
  {
    AllStandNext(before, rest, u0, home, d, 0, promotable, n);
    BatchesNext(before, d, promotable, n);
  }

  /** In a visit to section `d`: on the first, `j` of its categories are done; on another, all of them are. */
  ghost predicate Visiting(before: seq<Section>, u0: int, again: bool, sections: seq<Section>, u: int,
                           rest: seq<Section>, home: Section, d: nat, n: nat, j: nat, promotable: set<nat>) {
    && d < |before| && before[d].title != P.UNRELEASED && j <= |before[d].subsections| && n == d + 1
    && if again then Progress(before, u0, sections, u, rest, home, n, 0, promotable, Batches(before, n, promotable))
       else Progress(before, u0, sections, u, rest, home, d, j, promotable,
                     Batches(before, d, promotable) + BatchesOf(before[d].subsections, j, promotable))
  }

  lemma VisitedStands(before: seq<Section>, u0: int, again: bool, sections: seq<Section>, u: int, rest: seq<Section>,
                      home: Section, d: nat, n: nat, j: nat, promotable: set<nat>)
    requires Visiting(before, u0, again, sections, u, rest, home, d, n, j, promotable)
    ensures Place(u0, u, d) < |sections| && sections[Place(u0, u, d)] == rest[d] && u < |sections|
    ensures rest[d].title != P.UNRELEASED && |rest[d].subsections| == |before[d].subsections|
    ensures Emptied(before[d], rest[d], if again then |before[d].subsections| else j, promotable)
  {
    if again {
      TitleStays(before, u0, sections, u, rest, home, n, 0, promotable, Batches(before, n, promotable), d);
    } else {
      TitleStays(before, u0, sections, u, rest, home, d, j, promotable,
                 Batches(before, d, promotable) + BatchesOf(before[d].subsections, j, promotable), d);
    }
  }

  /** Another visit finds nothing to move. */
  lemma AgainNothing(before: Section, sections: seq<Section>, pos: nat, j: nat, u: int, promotable: set<nat>,
                     after: seq<Section>, u': int, home: Section)
    requires pos < |sections| && u < |sections| && j < |before.subsections|
    requires Emptied(before, sections[pos], |before.subsections|, promotable)
    requires Moves(sections, after, pos, j, u, u', home, promotable)
    ensures after == sections && u' == u
  {
    LeftIsSpent(before.subsections[j], promotable);
  }

  lemma VisitMore(before: seq<Section>, u0: int, again: bool, sections: seq<Section>, u: int, rest: seq<Section>,
                  home: Section, pos: nat, d: nat, n: nat, j: nat, promotable: set<nat>, after: seq<Section>, u': int,
                  put: Section, m: nat)
    returns (rest': seq<Section>, home': Section)
    requires Visiting(before, u0, again, sections, u, rest, home, d, n, j, promotable) && m == j + 1
    requires j < |before[d].subsections| && pos == Place(u0, u, d)
    requires pos < |sections| && u < |sections| && j < |sections[pos].subsections|
    requires Moves(sections, after, pos, j, u, u', put, promotable)
    ensures Visiting(before, u0, again, after, u', rest', home', d, n, m, promotable)
    ensures |after| == |sections| + Place(u0, u', d) - pos && (u >= 0 ==> u' == u)
  {
    VisitedStands(before, u0, again, sections, u, rest, home, d, n, j, promotable);
    if again {
      AgainNothing(before[d], sections, pos, j, u, promotable, after, u', put);
      rest', home' := rest, home;
    } else {
      rest', home' := ProgressMore(before, u0, sections, u, rest, home, pos, d, j, promotable,
        Batches(before, d, promotable) + BatchesOf(before[d].subsections, j, promotable), after, u', put);
    }
  }

  method NextCategory(ghost before: seq<Section>, ghost u0: int, ghost again: bool, sections: seq<Section>, u: int,
                      ghost rest: seq<Section>, ghost home: Section, ghost d: nat, ghost n: nat, j: nat, pos: nat,
                      promotable: set<nat>, ghost m: nat)
    returns (after: seq<Section>, u': int, ghost rest': seq<Section>, ghost home': Section, pos': nat)
    requires AllSound(sections) && Visiting(before, u0, again, sections, u, rest, home, d, n, j, promotable)
    requires Known(sections, u) && j < |before[d].subsections| && pos == Place(u0, u, d) && m == j + 1
    ensures Kept(sections, after, u', promotable)
    ensures Visiting(before, u0, again, after, u', rest', home', d, n, m, promotable)
    ensures pos' == Place(u0, u', d) && |after| == |sections| + pos' - pos && (u >= 0 ==> u' == u)
  {
    VisitedStands(before, u0, again, sections, u, rest, home, d, n, j, promotable);
    ghost var put;
    after, u', put := PromoteSubsection(sections, pos, j, u, promotable);
    rest', home' :=
      VisitMore(before, u0, again, sections, u, rest, home, pos, d, n, j, promotable, after, u', put, m);
    pos' := pos + |after| - |sections|;
  }

  lemma VisitCount(before: seq<Section>, u0: int, again: bool, sections: seq<Section>, u: int, rest: seq<Section>,
                   home: Section, d: nat, n: nat, j: nat, at: nat, promotable: set<nat>)
    requires Visiting(before, u0, again, sections, u, rest, home, d, n, j, promotable) && at == Place(u0, u, d)
    ensures at < |sections| && |sections[at].subsections| == |before[d].subsections|
  {
    VisitedStands(before, u0, again, sections, u, rest, home, d, n, j, promotable);
  }

  /** The categories of a section, one after the other. A new Unreleased section moves the section one place on. */
  method VisitSection(ghost before: seq<Section>, ghost u0: int, ghost again: bool, mid: seq<Section>, at: nat,
                      midU: int, ghost rest0: seq<Section>, ghost home0: Section, ghost d: nat, ghost n: nat,
                      promotable: set<nat>)
    returns (sections: seq<Section>, u: int, ghost rest: seq<Section>, ghost home: Section)
    requires AllSound(mid) && Known(mid, midU) && at == Place(u0, midU, d)
    requires Visiting(before, u0, again, mid, midU, rest0, home0, d, n, 0, promotable)
    ensures Kept(mid, sections, u, promotable)
    ensures Progress(before, u0, sections, u, rest, home, n, 0, promotable, Batches(before, n, promotable))
    ensures |sections| == |mid| + Place(u0, u, d) - at && (midU >= 0 ==> u == midU)
  {
    sections, u, rest, home := mid, midU, rest0, home0;
    KeptRefl(mid, midU, promotable);
    VisitCount(before, u0, again, mid, midU, rest0, home0, d, n, 0, at, promotable);
    var pos, j, count := at, 0, |mid[at].subsections|;
    while j < count
      invariant 0 <= j <= count && pos == Place(u0, u, d) && |sections| == |mid| + pos - at
      invariant Kept(mid, sections, u, promotable) && (midU >= 0 ==> u == midU)
      invariant Visiting(before, u0, again, sections, u, rest, home, d, n, j, promotable)
    {
      ghost var was, wasU := sections, u;
      sections, u, rest, home, pos :=
        NextCategory(before, u0, again, sections, u, rest, home, d, n, j, pos, promotable, j + 1);
      KeptTrans(mid, was, wasU, sections, u, promotable);
      j := j + 1;
    }
    VisitEnds(before, u0, again, sections, u, rest, home, d, n, j, promotable);
  }

  lemma VisitEnds(before: seq<Section>, u0: int, again: bool, sections: seq<Section>, u: int, rest: seq<Section>,
                  home: Section, d: nat, n: nat, j: nat, promotable: set<nat>)
    requires Visiting(before, u0, again, sections, u, rest, home, d, n, j, promotable) && j == |before[d].subsections|
    ensures Progress(before, u0, sections, u, rest, home, n, 0, promotable, Batches(before, n, promotable))
  {
    if !again { SectionDone(before, u0, sections, u, rest, home, d, j, promotable, n); }
  }

  /** Between two sections: the first `d` are done, and the loop stands at the next, or once more at the last of them
      if a new section was put in front meanwhile. */
  ghost predicate Turning(before: seq<Section>, u0: int, sections: seq<Section>, u: int, rest: seq<Section>,
                          home: Section, d: nat, i: nat, promotable: set<nat>) {
    && d <= |before|
    && Progress(before, u0, sections, u, rest, home, d, 0, promotable, Batches(before, d, promotable))
    && (i == Place(u0, u, d) || (d > 0 && i == Place(u0, u, d - 1)))
  }

  /** The sections are sound, and nothing but promotion happened to them. */
  ghost predicate Kept(before: seq<Section>, sections: seq<Section>, u: int, promotable: set<nat>) {
    && AllSound(sections) && Known(sections, u) && Evolves(before, sections, promotable)
    && (promotable == {} ==> sections == before)
  }

  lemma KeptRefl(before: seq<Section>, u: int, promotable: set<nat>)
    requires AllSound(before) && Known(before, u)
    ensures Kept(before, before, u, promotable)
  {
    EvolvesRefl(before, promotable);
  }

  lemma KeptTrans(before: seq<Section>, mid: seq<Section>, midU: int, sections: seq<Section>, u: int,
                  promotable: set<nat>)
    requires Kept(before, mid, midU, promotable) && Kept(mid, sections, u, promotable)
    ensures Kept(before, sections, u, promotable)
  {
    EvolvesTrans(before, mid, sections, promotable);
  }

  /** The loop stands at section `k` of those given. */
  predicate StandsAt(before: seq<Section>, u0: int, u: int, d: nat, i: nat, k: nat) {
    k < |before| && i == Place(u0, u, k) && (d == k || d == k + 1)
  }

  lemma Standing(before: seq<Section>, u0: int, mid: seq<Section>, u: int, rest: seq<Section>, home: Section, d: nat,
                 i: nat, promotable: set<nat>)
    returns (k: nat)
    requires Turning(before, u0, mid, u, rest, home, d, i, promotable) && i < |mid|
    ensures StandsAt(before, u0, u, d, i, k)
    ensures mid[i].title == P.UNRELEASED <==> before[k].title == P.UNRELEASED
  {
    k := if i == Place(u0, u, d) then d else d - 1;
    assert |mid| == Place(u0, u, |before|);
    TitleStays(before, u0, mid, u, rest, home, d, 0, promotable, Batches(before, d, promotable), k);
  }

  lemma TurnSkips(before: seq<Section>, u0: int, mid: seq<Section>, u: int, rest: seq<Section>, home: Section, d: nat,
                  i: nat, promotable: set<nat>, k: nat, n: nat, next: nat)
    requires Turning(before, u0, mid, u, rest, home, d, i, promotable) && StandsAt(before, u0, u, d, i, k)
    requires before[k].title == P.UNRELEASED && n == k + 1 && next == i + 1
    ensures Turning(before, u0, mid, u, rest, home, n, next, promotable)
  {
    if d == k { SectionSkipped(before, u0, mid, u, rest, home, d, promotable, n); }
  }

  lemma TurnFirst(before: seq<Section>, u0: int, mid: seq<Section>, u: int, rest: seq<Section>, home: Section,
                  i: nat, promotable: set<nat>, k: nat, n: nat)
    requires Turning(before, u0, mid, u, rest, home, k, i, promotable) && n == k + 1
    requires k < |before| && before[k].title != P.UNRELEASED
    ensures Visiting(before, u0, false, mid, u, rest, home, k, n, 0, promotable)
  {
    BatchesStart(before, k, promotable);
  }

  lemma TurnAgain(before: seq<Section>, u0: int, mid: seq<Section>, u: int, rest: seq<Section>, home: Section,
                  i: nat, promotable: set<nat>, k: nat, n: nat)
    requires Turning(before, u0, mid, u, rest, home, n, i, promotable) && n == k + 1
    requires k < |before| && before[k].title != P.UNRELEASED
    ensures Visiting(before, u0, true, mid, u, rest, home, k, n, 0, promotable)
  {
  }

  /** A section is entered for the first time, or again. */
  lemma TurnBegins(before: seq<Section>, u0: int, mid: seq<Section>, u: int, rest: seq<Section>, home: Section,
                   d: nat, i: nat, promotable: set<nat>, k: nat, n: nat) returns (again: bool)
    requires Turning(before, u0, mid, u, rest, home, d, i, promotable) && StandsAt(before, u0, u, d, i, k)
    requires before[k].title != P.UNRELEASED && n == k + 1
    ensures Visiting(before, u0, again, mid, u, rest, home, k, n, 0, promotable)
  {
    if d == k {
      again := false;
      TurnFirst(before, u0, mid, u, rest, home, i, promotable, k, n);
    } else {
      again := true;
      TurnAgain(before, u0, mid, u, rest, home, i, promotable, k, n);
    }
  }

  lemma TurnDone(before: seq<Section>, u0: int, mid: seq<Section>, midU: int, rest0: seq<Section>, home0: Section,
                 d: nat, sections: seq<Section>, u: int, rest: seq<Section>, home: Section, i: nat,
                 promotable: set<nat>, k: nat, n: nat, next: nat)
    requires Turning(before, u0, mid, midU, rest0, home0, d, i, promotable) && StandsAt(before, u0, midU, d, i, k)
    requires n == k + 1
    requires Progress(before, u0, sections, u, rest, home, n, 0, promotable, Batches(before, n, promotable))
    requires |sections| == |mid| + Place(u0, u, k) - i && next == i + 1 && (midU >= 0 ==> u == midU)
    ensures Turning(before, u0, sections, u, rest, home, n, next, promotable)
    ensures if midU < 0 then u < 0 ==> |sections| == |mid| else |sections| == |mid|
  {
  }

  /** One turn of the outer loop. */
  method NextSection(ghost before: seq<Section>, ghost u0: int, mid: seq<Section>, midU: int,
                     ghost rest0: seq<Section>, ghost home0: Section, ghost d0: nat, i: nat, promotable: set<nat>,
                     ghost next: nat)
    returns (sections: seq<Section>, u: int, ghost rest: seq<Section>, ghost home: Section, ghost d: nat)
    requires Turning(before, u0, mid, midU, rest0, home0, d0, i, promotable) && i < |mid| && next == i + 1
    requires Kept(before, mid, midU, promotable)
    ensures Turning(before, u0, sections, u, rest, home, d, next, promotable) && Kept(before, sections, u, promotable)
    ensures if midU < 0 then u < 0 ==> |sections| == |mid| else |sections| == |mid| && u == midU
  {
    ghost var k := Standing(before, u0, mid, midU, rest0, home0, d0, i, promotable);
    d := k + 1;
    if mid[i].title == P.UNRELEASED {
      TurnSkips(before, u0, mid, midU, rest0, home0, d0, i, promotable, k, d, next);
      sections, u, rest, home := mid, midU, rest0, home0;
    } else {
      ghost var again := TurnBegins(before, u0, mid, midU, rest0, home0, d0, i, promotable, k, d);
      sections, u, rest, home := VisitSection(before, u0, again, mid, i, midU, rest0, home0, k, d, promotable);
      TurnDone(before, u0, mid, midU, rest0, home0, d0, sections, u, rest, home, i, promotable, k, d, next);
      KeptTrans(before, mid, midU, sections, u, promotable);
    }
  }

  lemma LoopStarts(before: seq<Section>, u0: int, promotable: set<nat>) returns (home: Section)
    requires Known(before, u0)
    ensures Turning(before, u0, before, u0, before, home, 0, 0, promotable)
  {
    home := Home(before, u0);
    BoardStarts(BoardOf(home.subsections));
  }

  /** All released sections in turn; a section is visited again when one was put in front of it. */
  method Promote(before: seq<Section>, promotable: set<nat>) returns (sections: seq<Section>)
    requires AllSound(before)
    ensures AllSound(sections) && SameBody(before, sections) && OnlyPromotes(before, sections, promotable)
    ensures Promotes(before, sections, promotable)
    ensures promotable == {} ==> sections == before
  {
    sections := before;
    var u := FirstIndex(before);
    ghost var u0, rest, d := u, before, 0;
    ghost var home := LoopStarts(before, u0, promotable);
    KeptRefl(before, u, promotable);
    var i := 0;
    while i < |sections|
      invariant Turning(before, u0, sections, u, rest, home, d, i, promotable) && Kept(before, sections, u, promotable)
      decreases if u < 0 then 1 else 0, |sections| - i
    {
      sections, u, rest, home, d := NextSection(before, u0, sections, u, rest, home, d, i, promotable, i + 1);
      i := i + 1;
    }
    LoopEnds(before, u0, sections, u, rest, home, d, i, promotable);
  }

  lemma LoopEnds(before: seq<Section>, u0: int, sections: seq<Section>, u: int, rest: seq<Section>, home: Section,
                 d: nat, i: nat, promotable: set<nat>)
    requires Turning(before, u0, sections, u, rest, home, d, i, promotable) && i >= |sections|
    ensures Promotes(before, sections, promotable)
  {
    assert |sections| == Place(u0, u, |before|) && d == |before|;
  }

  method FirstIndex(sections: seq<Section>) returns (u: int)
    ensures Known(sections, u)
  {
    for i := 0 to |sections|
      invariant forall j :: 0 <= j < i ==> sections[j].title != P.UNRELEASED
    {
      if sections[i].title == P.UNRELEASED { return i; }
    }
    u := -1;
  }

  /** Nothing promotable is left in a released section. */
  lemma PromotedIsSpent(before: seq<Section>, after: seq<Section>, promotable: set<nat>)
    requires Promotes(before, after, promotable)
    ensures forall h, t, x :: ReleasedItem(after, h, t, x) ==> Start(x) !in promotable
  {
    var u0, u, rest, home :|
      Progress(before, u0, after, u, rest, home, |before|, 0, promotable, Batches(before, |before|, promotable));
    forall h, t, x | ReleasedItem(after, h, t, x) ensures Start(x) !in promotable {
      var i :| 0 <= i < |after| && after[i].title != P.UNRELEASED && after[i].heading == h
               && SectionItem(after[i], t, x);
      SectionIsSpent(before, u0, after, u, rest, home, |before|, promotable, Batches(before, |before|, promotable), i,
                     t, x);
    }
  }

  lemma SectionIsSpent(before: seq<Section>, u0: int, after: seq<Section>, u: int, rest: seq<Section>, home: Section,
                       d: nat, promotable: set<nat>, batches: seq<Batch>, i: nat, t: string, x: Item)
    requires Progress(before, u0, after, u, rest, home, d, 0, promotable, batches) && d == |before|
    requires i < |after| && after[i].title != P.UNRELEASED && SectionItem(after[i], t, x)
    ensures Start(x) !in promotable
  {
    var k := if u == u0 then i else i - 1;
    TitleStays(before, u0, after, u, rest, home, d, 0, promotable, batches, k);
    EmptiedIsSpent(before[k], rest[k], promotable, t, x);
  }

  lemma EmptiedIsSpent(before: Section, after: Section, promotable: set<nat>, t: string, x: Item)
    requires Emptied(before, after, |before.subsections|, promotable) && SectionItem(after, t, x)
    ensures Start(x) !in promotable
  {
    var j :| 0 <= j < |after.subsections| && after.subsections[j].title == t
             && x in NumberedItemsOf(after.subsections[j].lines);
    var sub := before.subsections[j];
    LeftIsSpent(sub, promotable);
    SelectMembers(NumberedItemsOf(sub.lines), Not(P.Promoted(promotable)));
  }
}
