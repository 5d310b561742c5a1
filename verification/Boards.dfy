/** The categories of a section as titles and item keys, and what they are after items were put there one
    batch after the other. */
module Boards {
  import opened Sifting
  import opened ChangelogItems

  datatype Slot = Slot(title: string, keys: seq<Key>)

  /** Items taken out of one category. */
  datatype Batch = Batch(title: string, keys: seq<Key>)

  // ---- items that are added to a category ----

  predicate IsNew(had: seq<Key>, more: seq<Key>, k: nat)
    requires k < |more|
  {
    more[k] !in had && more[k] !in more[..k]
  }

  predicate Picks(had: seq<Key>, more: seq<Key>, p: seq<nat>) {
    forall k: nat :: k < |more| ==> (k in p <==> IsNew(had, more, k))
  }

  /** What was there, and behind it those of `more` that were not, each where it first occurs. */
  ghost predicate Gains(had: seq<Key>, more: seq<Key>, after: seq<Key>) {
    exists added, p :: after == had + added && Sifts(more, added, p) && Picks(had, more, p)
  }

  lemma GainsNothing(had: seq<Key>)
    ensures Gains(had, [], had)
  {
    assert had == had + [] && Sifts<Key>([], [], []) && Picks(had, [], []);
  }

  lemma GainsFirst(had: seq<Key>, key: Key, after: seq<Key>)
    requires after == if key in had then had else had + [key]
    ensures Gains(had, [key], after)
  {
    var added, p := if key in had then [] else [key], if key in had then [] else [0];
    assert after == had + added && Sifts([key], added, p);
    assert key !in [key][..0];
    assert Picks(had, [key], p);
  }

  /** One more item, which may be there already. */
  lemma GainsOne(had: seq<Key>, more: seq<Key>, mid: seq<Key>, key: Key, after: seq<Key>)
    requires Gains(had, more, mid) && after == if key in mid then mid else mid + [key]
    ensures Gains(had, more + [key], after)
  {
    GainsFirst(mid, key, after);
    GainsTwice(had, more, mid, [key], after);
  }

  lemma SiftedMembers(had: seq<Key>, more: seq<Key>, added: seq<Key>, p: seq<nat>, x: Key)
    requires Sifts(more, added, p) && Picks(had, more, p)
    ensures x in added <==> x in more && x !in had
  {
    if x in added {
      var m :| 0 <= m < |added| && added[m] == x;
      assert p[m] in p && IsNew(had, more, p[m]);
    }
    if x in more && x !in had {
      var k := FirstPlace(more, x);
      assert IsNew(had, more, k);
      var m :| 0 <= m < |p| && p[m] == k;
      assert added[m] == x;
    }
  }

  lemma {:induction false} FirstPlace(more: seq<Key>, x: Key) returns (k: nat)
    requires x in more
    ensures k < |more| && more[k] == x && x !in more[..k]
  {
    if more[0] == x {
      k := 0;
    } else {
      var rest := FirstPlace(more[1..], x);
      k := rest + 1;
      assert more[..k] == [more[0]] + more[1..][..rest];
    }
  }

  lemma GainsMembers(had: seq<Key>, more: seq<Key>, after: seq<Key>, x: Key)
    requires Gains(had, more, after)
    ensures x in after <==> x in had || x in more
  {
    var added, p :| after == had + added && Sifts(more, added, p) && Picks(had, more, p);
    SiftedMembers(had, more, added, p, x);
  }

  /** An item of the second batch is new exactly when it is new behind the first. */
  lemma NewBehind(had: seq<Key>, more: seq<Key>, mid: seq<Key>, rest: seq<Key>, k: nat)
    requires Gains(had, more, mid) && k < |rest|
    ensures IsNew(had, more + rest, |more| + k) <==> IsNew(mid, rest, k)
  {
    var all := more + rest;
    assert all[..|more| + k] == more + rest[..k] && all[|more| + k] == rest[k];
    GainsMembers(had, more, mid, rest[k]);
  }

  lemma NewBefore(had: seq<Key>, more: seq<Key>, rest: seq<Key>, k: nat)
    requires k < |more|
    ensures IsNew(had, more + rest, k) <==> IsNew(had, more, k)
  {
    assert (more + rest)[..k] == more[..k] && (more + rest)[k] == more[k];
  }

  lemma InBoth(p: seq<nat>, q: seq<nat>, n: nat, k: nat)
    requires forall i :: 0 <= i < |p| ==> p[i] < n
    ensures k in p + Moved(q, n) <==> if k < n then k in p else k - n in q
  {
    MovedHas(q, n, k);
    assert k in p + Moved(q, n) <==> k in p || k in Moved(q, n);
  }

  /** Adding one batch and then another is adding both at once. */
  lemma GainsTwice(had: seq<Key>, more: seq<Key>, mid: seq<Key>, rest: seq<Key>, after: seq<Key>)
    requires Gains(had, more, mid) && Gains(mid, rest, after)
    ensures Gains(had, more + rest, after)
  {
    var a, p :| mid == had + a && Sifts(more, a, p) && Picks(had, more, p);
    var b, q :| after == mid + b && Sifts(rest, b, q) && Picks(mid, rest, q);
    var all, r := more + rest, p + Moved(q, |more|);
    SiftJoin(more, a, p, rest, b, q);
    forall k: nat | k < |all| ensures k in r <==> IsNew(had, all, k) {
      InBoth(p, q, |more|, k);
      if k < |more| { NewBefore(had, more, rest, k); } else { NewBehind(had, more, mid, rest, k - |more|); }
    }
    assert after == had + (a + b);
  }

  // ---- batches ----

  /** The items that come under one title. */
  function Under(batches: seq<Batch>, title: string): seq<Key> {
    if batches == [] then []
    else
      var last := batches[|batches| - 1];
      Under(batches[..|batches| - 1], title) + if last.title == title then last.keys else []
  }

  lemma UnderSnoc(batches: seq<Batch>, b: Batch, title: string)
    ensures Under(batches + [b], title) == Under(batches, title) + if b.title == title then b.keys else []
  {
    assert (batches + [b])[..|batches|] == batches;
  }

  predicate IsLast(board: seq<Slot>, j: nat) {
    j < |board| && forall i :: j < i < |board| ==> board[i].title != board[j].title
  }

  predicate HasTitle(board: seq<Slot>, title: string) {
    exists j :: 0 <= j < |board| && board[j].title == title
  }

  /** The items go to the last category of that title, or to a new one at the end. */
  ghost predicate PutOn(before: seq<Slot>, title: string, keys: seq<Key>, after: seq<Slot>) {
    if HasTitle(before, title) then
      exists t: nat :: IsLast(before, t) && before[t].title == title && |after| == |before| && after[t].title == title
                       && Gains(before[t].keys, keys, after[t].keys)
                       && forall j :: 0 <= j < |before| && j != t ==> after[j] == before[j]
    else
      && |after| == |before| + 1 && after[..|before|] == before
      && after[|before|].title == title && Gains([], keys, after[|before|].keys)
  }

  predicate Mentions(batches: seq<Batch>, title: string) {
    exists m :: 0 <= m < |batches| && batches[m].title == title
  }

  /** The first batch for `s` comes before any for `t`. */
  predicate Sooner(batches: seq<Batch>, s: string, t: string) {
    exists m :: 0 <= m < |batches| && batches[m].title == s && forall l :: 0 <= l <= m ==> batches[l].title != t
  }

  /** An old category keeps its place; the last of its title gains what came under that title. */
  ghost predicate OldSlot(start: seq<Slot>, batches: seq<Batch>, after: seq<Slot>, j: nat)
    requires j < |start| && j < |after|
  {
    && after[j].title == start[j].title
    && if IsLast(start, j) then Gains(start[j].keys, Under(batches, start[j].title), after[j].keys)
       else after[j].keys == start[j].keys
  }

  /** A new category is there for a title that no category had before it, and holds what came under that title. */
  ghost predicate NewSlot(start: seq<Slot>, batches: seq<Batch>, after: seq<Slot>, j: nat)
    requires |start| <= j < |after|
  {
    && Mentions(batches, after[j].title) && Gains([], Under(batches, after[j].title), after[j].keys)
    && (forall i :: 0 <= i < j ==> after[i].title != after[j].title)
    && forall i :: |start| <= i < j ==> Sooner(batches, after[i].title, after[j].title)
  }

  ghost predicate BoardAfter(start: seq<Slot>, batches: seq<Batch>, after: seq<Slot>) {
    && |start| <= |after|
    && (forall j :: 0 <= j < |start| ==> OldSlot(start, batches, after, j))
    && (forall j :: |start| <= j < |after| ==> NewSlot(start, batches, after, j))
    && forall m :: 0 <= m < |batches| ==> HasTitle(after, batches[m].title)
  }

  lemma BoardStarts(start: seq<Slot>)
    ensures BoardAfter(start, [], start)
  {
    forall j | 0 <= j < |start| ensures OldSlot(start, [], start, j) { GainsNothing(start[j].keys); }
  }

  lemma MentionsMore(batches: seq<Batch>, b: Batch, s: string, t: string)
    ensures Mentions(batches + [b], s) <==> Mentions(batches, s) || b.title == s
    ensures Sooner(batches, s, t) ==> Sooner(batches + [b], s, t)
    ensures Mentions(batches, s) && !Mentions(batches, t) ==> Sooner(batches, s, t)
  {
    var more := batches + [b];
    if m :| 0 <= m < |batches| && batches[m].title == s { assert more[m].title == s; }
    if b.title == s { assert more[|batches|].title == s; }
    if m :| 0 <= m < |batches| && batches[m].title == s && forall l :: 0 <= l <= m ==> batches[l].title != t {
      assert more[m].title == s && forall l :: 0 <= l <= m ==> more[l].title != t;
    }
  }

  /** What a slot holds when one more batch goes to it or passes it by. */
  lemma GainsBatch(had: seq<Key>, batches: seq<Batch>, b: Batch, title: string, mid: seq<Key>, after: seq<Key>)
    requires Gains(had, Under(batches, title), mid)
    requires if b.title == title then Gains(mid, b.keys, after) else after == mid
    ensures Gains(had, Under(batches + [b], title), after)
  {
    UnderSnoc(batches, b, title);
    if b.title == title {
      GainsTwice(had, Under(batches, title), mid, b.keys, after);
    } else {
      assert Under(batches, title) + [] == Under(batches, title);
    }
  }

  lemma {:induction false} NothingUnder(batches: seq<Batch>, title: string)
    requires !Mentions(batches, title)
    ensures Under(batches, title) == []
  {
    if batches != [] {
      var init := batches[..|batches| - 1];
      assert batches[|batches| - 1].title != title;
      forall m | 0 <= m < |init| ensures init[m].title != title { assert batches[m].title != title; }
      NothingUnder(init, title);
    }
  }

  /** Titles never change place. */
  lemma SameTitles(before: seq<Slot>, title: string, keys: seq<Key>, after: seq<Slot>)
    requires PutOn(before, title, keys, after)
    ensures |before| <= |after| && HasTitle(after, title)
    ensures forall j :: 0 <= j < |before| ==> after[j].title == before[j].title
    ensures |after| > |before| ==> |after| == |before| + 1 && after[|before|].title == title && !HasTitle(before, title)
  {
    if !HasTitle(before, title) {
      assert forall j :: 0 <= j < |before| ==> after[j] == after[..|before|][j];
      assert after[|before|].title == title;
    }
  }

  /** One slot that was there: it is the last of its title and gains the batch, or it stays. */
  lemma SlotStep(before: seq<Slot>, b: Batch, after: seq<Slot>, j: nat)
    requires PutOn(before, b.title, b.keys, after) && j < |before|
    ensures j < |after|
    ensures if IsLast(before, j) && before[j].title == b.title then Gains(before[j].keys, b.keys, after[j].keys)
            else after[j] == before[j]
  {
    if HasTitle(before, b.title) {
      var t: nat :| IsLast(before, t) && before[t].title == b.title && |after| == |before| && after[t].title == b.title
                    && Gains(before[t].keys, b.keys, after[t].keys)
                    && forall j :: 0 <= j < |before| && j != t ==> after[j] == before[j];
      if j != t && before[j].title == b.title { assert j < t; assert !IsLast(before, j); }
    } else {
      assert after[j] == after[..|before|][j];
    }
  }

  lemma OldStep(start: seq<Slot>, batches: seq<Batch>, before: seq<Slot>, b: Batch, after: seq<Slot>, j: nat)
    requires BoardAfter(start, batches, before) && PutOn(before, b.title, b.keys, after) && j < |start|
    ensures j < |after| && OldSlot(start, batches + [b], after, j)
  {
    assert OldSlot(start, batches, before, j);
    SlotStep(before, b, after, j);
    SameTitles(before, b.title, b.keys, after);
    forall i | j < i < |before| ensures i >= |start| ==> before[i].title != before[j].title {
      if i >= |start| { assert NewSlot(start, batches, before, i); }
    }
    assert forall i :: 0 <= i < |start| ==> before[i].title == start[i].title by {
      forall i | 0 <= i < |start| ensures before[i].title == start[i].title {
        assert OldSlot(start, batches, before, i);
      }
    }
    assert IsLast(start, j) <==> IsLast(before, j);
    if IsLast(start, j) { GainsBatch(start[j].keys, batches, b, start[j].title, before[j].keys, after[j].keys); }
  }

  lemma NewIsLast(start: seq<Slot>, batches: seq<Batch>, board: seq<Slot>, j: nat)
    requires BoardAfter(start, batches, board) && |start| <= j < |board|
    ensures IsLast(board, j)
  {
    forall i | j < i < |board| ensures board[i].title != board[j].title { assert NewSlot(start, batches, board, i); }
  }

  lemma StillSooner(start: seq<Slot>, batches: seq<Batch>, before: seq<Slot>, b: Batch, i: nat, j: nat)
    requires BoardAfter(start, batches, before) && |start| <= i < j < |before|
    ensures Sooner(batches + [b], before[i].title, before[j].title)
  {
    assert NewSlot(start, batches, before, j);
    MentionsMore(batches, b, before[i].title, before[j].title);
  }

  lemma NewStep(start: seq<Slot>, batches: seq<Batch>, before: seq<Slot>, b: Batch, after: seq<Slot>, j: nat)
    requires BoardAfter(start, batches, before) && PutOn(before, b.title, b.keys, after) && |start| <= j < |before|
    ensures j < |after| && NewSlot(start, batches + [b], after, j)
  {
    assert NewSlot(start, batches, before, j);
    SlotStep(before, b, after, j);
    SameTitles(before, b.title, b.keys, after);
    NewIsLast(start, batches, before, j);
    GainsBatch([], batches, b, before[j].title, before[j].keys, after[j].keys);
    MentionsMore(batches, b, before[j].title, before[j].title);
    forall i | |start| <= i < j ensures Sooner(batches + [b], after[i].title, after[j].title) {
      StillSooner(start, batches, before, b, i, j);
    }
  }

  lemma MentionedIsThere(start: seq<Slot>, batches: seq<Batch>, board: seq<Slot>, title: string)
    requires BoardAfter(start, batches, board)
    ensures Mentions(batches, title) ==> HasTitle(board, title)
  {
  }

  /** A slot that the batch opens. */
  lemma OpenedStep(start: seq<Slot>, batches: seq<Batch>, before: seq<Slot>, b: Batch, after: seq<Slot>)
    requires BoardAfter(start, batches, before) && PutOn(before, b.title, b.keys, after) && |after| == |before| + 1
    ensures NewSlot(start, batches + [b], after, |before|)
  {
    SameTitles(before, b.title, b.keys, after);
    var n := |before|;
    MentionedIsThere(start, batches, before, b.title);
    NothingUnder(batches, b.title);
    UnderSnoc(batches, b, b.title);
    assert [] + b.keys == b.keys;
    MentionsMore(batches, b, b.title, b.title);
    forall i | 0 <= i < n ensures after[i].title != after[n].title { assert before[i].title != b.title; }
    forall i | |start| <= i < n ensures Sooner(batches + [b], after[i].title, after[n].title) {
      assert NewSlot(start, batches, before, i);
      MentionsMore(batches, b, before[i].title, b.title);
    }
  }

  lemma StillThere(before: seq<Slot>, title: string, keys: seq<Key>, after: seq<Slot>, t: string)
    requires PutOn(before, title, keys, after) && HasTitle(before, t)
    ensures HasTitle(after, t)
  {
    SameTitles(before, title, keys, after);
    var j :| 0 <= j < |before| && before[j].title == t;
    assert after[j].title == t;
  }

  /** One more batch. */
  lemma BoardStep(start: seq<Slot>, batches: seq<Batch>, before: seq<Slot>, b: Batch, after: seq<Slot>)
    requires BoardAfter(start, batches, before) && PutOn(before, b.title, b.keys, after)
    ensures BoardAfter(start, batches + [b], after)
  {
    SameTitles(before, b.title, b.keys, after);
    forall j | 0 <= j < |start| ensures OldSlot(start, batches + [b], after, j) {
      OldStep(start, batches, before, b, after, j);
    }
    forall j | |start| <= j < |after| ensures NewSlot(start, batches + [b], after, j) {
      if j < |before| {
        NewStep(start, batches, before, b, after, j);
      } else {
        OpenedStep(start, batches, before, b, after);
      }
    }
    forall m | 0 <= m < |batches| + 1 ensures HasTitle(after, (batches + [b])[m].title) {
      if m < |batches| { StillThere(before, b.title, b.keys, after, batches[m].title); }
    }
  }
}
