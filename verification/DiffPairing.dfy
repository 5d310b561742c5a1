/** Which list items a changelog diff really adds: not moved and not rewritten. */
module DiffPairing {
  import opened Basics
  import opened ChangelogText

  datatype Hunk = Hunk(path: string, index: int)

  type ItemKey = (string, string)

  /** An added list item, by file, line in the new file, text and hunk. */
  datatype Added = Added(path: string, lineNumber: int, text: string, hunk: Hunk)
  {
    function Key(): ItemKey { (path, Trim(text)) }
  }

  datatype Removed = Removed(path: string, text: string, hunk: Hunk)
  {
    function Key(): ItemKey { (path, Trim(text)) }
  }

  /** A removal is of the item that an addition adds when the file is the same, and the text but for white space. */
  lemma SameItemIff(a: Added, r: Removed)
    ensures a.Key() == r.Key() <==> a.path == r.path && AgreeButForSpace(a.text, r.text)
  {
    SameTrimIff(a.text, r.text);
  }

  // ---- reading the diff ----

  datatype Scan = Scan(path: string, newLine: int, hunkIndex: int, added: seq<Added>, removed: seq<Removed>,
                       headings: set<Hunk>)

  const NOTHING_READ := Scan("", 0, -1, [], [], {})

  predicate StartsWith(line: string, head: string) { head <= line }

  /** `hunkStart` recognises a hunk header and gives the line its new side starts on. */
  function Step(hunkStart: string -> Option<int>, s: Scan, line: string): Scan {
    if StartsWith(line, "+++ b/") then s.(path := line[6..])
    else if StartsWith(line, "diff --git ") then s.(path := "", hunkIndex := -1)
    else if hunkStart(line).Some? then s.(newLine := hunkStart(line).value, hunkIndex := s.hunkIndex + 1)
    else if s.path == "" || s.hunkIndex < 0 || line == "" then s
    else
      var text, hunk := line[1..], Hunk(s.path, s.hunkIndex);
      if line[0] == '+' then
        s.(newLine := s.newLine + 1,
           headings := if StartsWith(line, "+## [") then s.headings + {hunk} else s.headings,
           added := if IsListItem(text) then s.added + [Added(s.path, s.newLine, text, hunk)] else s.added)
      else if line[0] == '-' then
        s.(removed := if IsListItem(text) then s.removed + [Removed(s.path, text, hunk)] else s.removed)
      else if line[0] == ' ' then s.(newLine := s.newLine + 1)
      else s
  }

  function ReadDiff(hunkStart: string -> Option<int>, lines: seq<string>): Scan {
    if lines == [] then NOTHING_READ
    else Step(hunkStart, ReadDiff(hunkStart, lines[..|lines| - 1]), lines[|lines| - 1])
  }

  // ---- counting ----

  /** How often `k` is among the first `n`. */
  function Seen<K(==)>(keys: seq<K>, n: nat, k: K): nat
    requires n <= |keys|
  {
    if n == 0 then 0 else Seen(keys, n - 1, k) + if keys[n - 1] == k then 1 else 0
  }

  function Total<K(==)>(keys: seq<K>, k: K): nat { Seen(keys, |keys|, k) }

  /** How often `k` is among the first `n` that are not flagged. */
  function SeenUnflagged<K(==)>(keys: seq<K>, flags: seq<bool>, n: nat, k: K): nat
    requires n <= |keys| == |flags|
  {
    if n == 0 then 0 else SeenUnflagged(keys, flags, n - 1, k) + if keys[n - 1] == k && !flags[n - 1] then 1 else 0
  }

  lemma {:induction false} SeenGrows<K>(keys: seq<K>, i: nat, j: nat, k: K)
    requires i <= j <= |keys|
    ensures Seen(keys, i, k) <= Seen(keys, j, k)
    ensures i < j && keys[i] == k ==> Seen(keys, i, k) < Seen(keys, j, k)
    decreases j - i
  {
    if i < j { SeenGrows(keys, i, j - 1, k); }
  }

  /** Every occurrence has its number, and every number its occurrence. */
  lemma {:induction false} Nth<K>(keys: seq<K>, n: nat, k: K, r: nat) returns (j: nat)
    requires n <= |keys| && r < Seen(keys, n, k)
    ensures j < n && keys[j] == k && Seen(keys, j, k) == r
  {
    if keys[n - 1] == k && Seen(keys, n - 1, k) == r { j := n - 1; } else { j := Nth(keys, n - 1, k, r); }
  }

  // ---- pairing an addition with a removal of the same item ----

  /** After the first `n` additions, exactly the earliest removals of every item are used up. */
  predicate UsedUp<K(==)>(removals: seq<K>, used: seq<bool>, additions: seq<K>, n: nat)
    requires n <= |additions|
  {
    && |used| == |removals|
    && forall j :: 0 <= j < |removals| ==>
         (used[j] <==> Seen(removals, j, removals[j]) < Seen(additions, n, removals[j]))
  }

  predicate Matched<K(==)>(additions: seq<K>, flags: seq<bool>, removals: seq<K>)
    requires |flags| <= |additions|
  {
    forall i :: 0 <= i < |flags| ==> (flags[i] <==> Seen(additions, i, additions[i]) < Total(removals, additions[i]))
  }

  method FindUnused<K(==)>(removals: seq<K>, used: seq<bool>, k: K) returns (j: nat)
    requires |used| == |removals|
    ensures j <= |removals| && (j < |removals| ==> removals[j] == k && !used[j])
    ensures forall i :: 0 <= i < j ==> removals[i] != k || used[i]
  {
    j := 0;
    while j < |removals| && (removals[j] != k || used[j])
      invariant j <= |removals| && forall i :: 0 <= i < j ==> removals[i] != k || used[i]
    {
      j := j + 1;
    }
  }

  lemma FirstUnused<K>(removals: seq<K>, used: seq<bool>, additions: seq<K>, n: nat, k: K, j: nat)
    requires n < |additions| && k == additions[n] && UsedUp(removals, used, additions, n)
    requires j <= |removals| && (j < |removals| ==> removals[j] == k && !used[j])
    requires forall i :: 0 <= i < j ==> removals[i] != k || used[i]
    ensures j < |removals| <==> Seen(additions, n, k) < Total(removals, k)
    ensures j < |removals| ==> Seen(removals, j, k) == Seen(additions, n, k)
  {
    if Seen(additions, n, k) < Total(removals, k) {
      UnusedIsLeft(removals, used, additions, n, k, j);
    } else if j < |removals| {
      SeenGrows(removals, j, |removals|, k);
    }
  }

  /** A removal is left: the first unused one has as many before it as additions came before. */
  lemma UnusedIsLeft<K>(removals: seq<K>, used: seq<bool>, additions: seq<K>, n: nat, k: K, j: nat)
    requires n < |additions| && k == additions[n] && UsedUp(removals, used, additions, n)
    requires j <= |removals| && (j < |removals| ==> removals[j] == k && !used[j])
    requires forall i :: 0 <= i < j ==> removals[i] != k || used[i]
    requires Seen(additions, n, k) < Total(removals, k)
    ensures j < |removals| && Seen(removals, j, k) == Seen(additions, n, k)
  {
    var m := Nth(removals, |removals|, k, Seen(additions, n, k));
    assert !used[m];
    assert j <= m;
    if j < m { SeenGrows(removals, j, m, k); }
  }

  lemma UseOne<K>(removals: seq<K>, used: seq<bool>, additions: seq<K>, n: nat, j: nat)
    requires n < |additions| && UsedUp(removals, used, additions, n)
    requires j < |removals| && removals[j] == additions[n]
             && Seen(removals, j, removals[j]) == Seen(additions, n, additions[n])
    ensures UsedUp(removals, used[j := true], additions, n + 1)
  {
    forall i | 0 <= i < |removals|
      ensures used[j := true][i] <==> Seen(removals, i, removals[i]) < Seen(additions, n + 1, removals[i])
    {
      if removals[i] == removals[j] && i != j { SeenApart(removals, i, j); }
    }
  }

  lemma SeenApart<K>(removals: seq<K>, i: nat, j: nat)
    requires i < |removals| && j < |removals| && i != j && removals[i] == removals[j]
    ensures if i < j then Seen(removals, i, removals[j]) < Seen(removals, j, removals[j])
            else Seen(removals, j, removals[j]) < Seen(removals, i, removals[j])
  {
    SeenGrows(removals, Min(i, j), Max(i, j), removals[j]);
  }

  lemma UseNone<K>(removals: seq<K>, used: seq<bool>, additions: seq<K>, n: nat)
    requires n < |additions| && UsedUp(removals, used, additions, n)
    requires Seen(additions, n, additions[n]) >= Total(removals, additions[n])
    ensures UsedUp(removals, used, additions, n + 1)
  {
    forall i | 0 <= i < |removals| && removals[i] == additions[n] ensures used[i] {
      SeenGrows(removals, i, |removals|, removals[i]);
    }
  }

  /** One addition takes the first removal of its item that is left, if any. */
  method PairNext<K(==)>(ghost additions: seq<K>, n: nat, k: K, removals: seq<K>, used0: seq<bool>)
    returns (found: bool, used: seq<bool>)
    requires n < |additions| && k == additions[n] && UsedUp(removals, used0, additions, n)
    ensures UsedUp(removals, used, additions, n + 1)
    ensures found <==> Seen(additions, n, k) < Total(removals, k)
  {
    var j := FindUnused(removals, used0, k);
    FirstUnused(removals, used0, additions, n, k, j);
    found, used := j < |removals|, used0;
    if found {
      UseOne(removals, used0, additions, n, j);
      used := used0[j := true];
    } else {
      UseNone(removals, used0, additions, n);
    }
  }

  lemma MatchedSnoc<K>(additions: seq<K>, flags: seq<bool>, removals: seq<K>, flag: bool)
    requires |flags| < |additions| && Matched(additions, flags, removals)
    requires flag <==> Seen(additions, |flags|, additions[|flags|]) < Total(removals, additions[|flags|])
    ensures Matched(additions, flags + [flag], removals)
  {
  }

  lemma NoneUsed<K>(removals: seq<K>, used: seq<bool>, additions: seq<K>)
    requires |used| == |removals| && forall j :: 0 <= j < |used| ==> !used[j]
    ensures UsedUp(removals, used, additions, 0)
  {
  }

  /** The pairing loop over the additions in order. */
  method PairUp<K(==)>(additions: seq<K>, removals: seq<K>) returns (paired: seq<bool>, used: seq<bool>)
    ensures |paired| == |additions| && Matched(additions, paired, removals)
    ensures UsedUp(removals, used, additions, |additions|)
  {
    paired, used := [], seq(|removals|, i => false);
    NoneUsed(removals, used, additions);
    for n := 0 to |additions|
      invariant |paired| == n && Matched(additions, paired, removals)
      invariant UsedUp(removals, used, additions, n)
    {
      var found;
      found, used := PairNext(additions, n, additions[n], removals, used);
      MatchedSnoc(additions, paired, removals, found);
      paired := paired + [found];
    }
  }

  lemma {:induction false} UnflaggedInOrder<K>(keys: seq<K>, flags: seq<bool>, limit: nat, n: nat, k: K)
    requires n <= |keys| == |flags|
    requires forall i :: 0 <= i < |keys| && keys[i] == k ==> (flags[i] <==> Seen(keys, i, k) < limit)
    ensures SeenUnflagged(keys, flags, n, k) == Max(0, Seen(keys, n, k) - limit)
  {
    if n > 0 { UnflaggedInOrder(keys, flags, limit, n - 1, k); }
  }

  lemma AdditionsPaired<K>(additions: seq<K>, paired: seq<bool>, removals: seq<K>, k: K, limit: nat)
    requires |paired| == |additions| && Matched(additions, paired, removals) && limit == Total(removals, k)
    ensures SeenUnflagged(additions, paired, |additions|, k) == Max(0, Total(additions, k) - limit)
  {
    UnflaggedInOrder(additions, paired, limit, |additions|, k);
  }

  lemma RemovalsUsed<K>(removals: seq<K>, used: seq<bool>, additions: seq<K>, k: K, limit: nat)
    requires UsedUp(removals, used, additions, |additions|) && limit == Total(additions, k)
    ensures SeenUnflagged(removals, used, |removals|, k) == Max(0, Total(removals, k) - limit)
  {
    UnflaggedInOrder(removals, used, limit, |removals|, k);
  }

  /** Of every item, exactly as many additions as removals are paired: the smaller of the two numbers. */
  lemma PairsAreMinimum<K>(additions: seq<K>, paired: seq<bool>, removals: seq<K>, used: seq<bool>, k: K)
    requires |paired| == |additions| && Matched(additions, paired, removals)
    requires UsedUp(removals, used, additions, |additions|)
    ensures Total(additions, k) - SeenUnflagged(additions, paired, |additions|, k)
            == Min(Total(additions, k), Total(removals, k))
    ensures Total(removals, k) - SeenUnflagged(removals, used, |removals|, k)
            == Min(Total(additions, k), Total(removals, k))
  {
    AdditionsPaired(additions, paired, removals, k, Total(removals, k));
    RemovalsUsed(removals, used, additions, k, Total(additions, k));
  }

  // ---- cancelling rewrites within a hunk ----

  /** Addition `i` survives: unpaired, in a hunk that adds no release heading, and past the hunk's rewrites. */
  predicate Survives(hunks: seq<Hunk>, paired: seq<bool>, headings: set<Hunk>, rewrites: Hunk -> nat, i: nat)
    requires |hunks| == |paired| && i < |hunks|
  {
    !paired[i] && hunks[i] !in headings && SeenUnflagged(hunks, paired, i, hunks[i]) >= rewrites(hunks[i])
  }

  function Rewrites(hunks: seq<Hunk>, used: seq<bool>): Hunk -> nat
    requires |hunks| == |used|
  {
    h => if |hunks| == |used| then SeenUnflagged(hunks, used, |hunks|, h) else 0
  }

  function Get(counts: map<Hunk, int>, h: Hunk): int { if h in counts then counts[h] else 0 }

  method CountUnpaired(hunks: seq<Hunk>, used: seq<bool>) returns (counts: map<Hunk, int>)
    requires |hunks| == |used|
    ensures forall h :: Get(counts, h) == SeenUnflagged(hunks, used, |hunks|, h)
  {
    counts := map[];
    for n := 0 to |hunks|
      invariant forall h :: Get(counts, h) == SeenUnflagged(hunks, used, n, h)
    {
      if !used[n] { counts := counts[hunks[n] := Get(counts, hunks[n]) + 1]; }
    }
  }

  /** The filtering loop: the first unpaired additions of a hunk cancel its unpaired removals. */
  method Filter(hunks: seq<Hunk>, paired: seq<bool>, headings: set<Hunk>, removedHunks: seq<Hunk>, used: seq<bool>)
    returns (survivors: seq<bool>)
    requires |hunks| == |paired| && |removedHunks| == |used|
    ensures |survivors| == |hunks|
    ensures forall i :: 0 <= i < |hunks| ==>
              (survivors[i] <==> Survives(hunks, paired, headings, Rewrites(removedHunks, used), i))
  {
    var counts := CountUnpaired(removedHunks, used);
    ghost var rewrites := Rewrites(removedHunks, used);
    survivors := [];
    for n := 0 to |hunks|
      invariant |survivors| == n
      invariant forall i :: 0 <= i < n ==> (survivors[i] <==> Survives(hunks, paired, headings, rewrites, i))
      invariant forall h :: h !in headings ==>
                  Get(counts, h) == Max(0, rewrites(h) - SeenUnflagged(hunks, paired, n, h))
    {
      var h, keep := hunks[n], false;
      if !paired[n] && h !in headings {
        var left := Get(counts, h);
        if left > 0 { counts := counts[h := left - 1]; } else { keep := true; }
      }
      survivors := survivors + [keep];
    }
  }

  function CountSurvivors(hunks: seq<Hunk>, survivors: seq<bool>, n: nat, h: Hunk): nat
    requires n <= |hunks| == |survivors|
  {
    if n == 0 then 0
    else CountSurvivors(hunks, survivors, n - 1, h) + if hunks[n - 1] == h && survivors[n - 1] then 1 else 0
  }

  /** In a hunk, as many additions survive as its unpaired additions exceed its unpaired removals; none beside a new
      heading. */
  lemma {:induction false} SurvivorCount(hunks: seq<Hunk>, paired: seq<bool>, headings: set<Hunk>,
                                         rewrites: Hunk -> nat, survivors: seq<bool>, n: nat, h: Hunk)
    requires |hunks| == |paired| == |survivors| && n <= |hunks|
    requires forall i :: 0 <= i < |hunks| ==> (survivors[i] <==> Survives(hunks, paired, headings, rewrites, i))
    ensures CountSurvivors(hunks, survivors, n, h)
              == if h in headings then 0 else Max(0, SeenUnflagged(hunks, paired, n, h) - rewrites(h))
  {
    if n > 0 { SurvivorCount(hunks, paired, headings, rewrites, survivors, n - 1, h); }
  }

  // ---- the collector ----

  function AddedKeys(added: seq<Added>): seq<ItemKey> { seq(|added|, i requires 0 <= i < |added| => added[i].Key()) }

  function AddedHunks(added: seq<Added>): seq<Hunk> { seq(|added|, i requires 0 <= i < |added| => added[i].hunk) }

  function RemovedKeys(removed: seq<Removed>): seq<ItemKey> {
    seq(|removed|, i requires 0 <= i < |removed| => removed[i].Key())
  }

  function RemovedHunks(removed: seq<Removed>): seq<Hunk> {
    seq(|removed|, i requires 0 <= i < |removed| => removed[i].hunk)
  }

  predicate LineIn(lines: map<string, set<int>>, path: string, n: int) { path in lines && n in lines[path] }

  /** Which additions the pairing takes: those with a removal left for them. */
  function PairedAdditions<K(==)>(additions: seq<K>, removals: seq<K>): seq<bool> {
    seq(|additions|,
        i requires 0 <= i < |additions| => Seen(additions, i, additions[i]) < Total(removals, additions[i]))
  }

  function UsedRemovals<K(==)>(removals: seq<K>, additions: seq<K>): seq<bool> {
    seq(|removals|, j requires 0 <= j < |removals| => Seen(removals, j, removals[j]) < Total(additions, removals[j]))
  }

  lemma PairingIsUnique<K>(additions: seq<K>, paired: seq<bool>, removals: seq<K>, used: seq<bool>)
    requires |paired| == |additions| && Matched(additions, paired, removals)
    requires UsedUp(removals, used, additions, |additions|)
    ensures paired == PairedAdditions(additions, removals) && used == UsedRemovals(removals, additions)
  {
    assert forall i :: 0 <= i < |additions| ==> paired[i] == PairedAdditions(additions, removals)[i];
    assert forall j :: 0 <= j < |removals| ==> used[j] == UsedRemovals(removals, additions)[j];
  }

  /** Addition `i` of the diff is new: not moved, not a rewrite, and not part of a new release. */
  predicate ReallyAdded(s: Scan, i: nat)
    requires i < |s.added|
  {
    var additions, removals := AddedKeys(s.added), RemovedKeys(s.removed);
    var rewrites := Rewrites(RemovedHunks(s.removed), UsedRemovals(removals, additions));
    Survives(AddedHunks(s.added), PairedAdditions(additions, removals), s.headings, rewrites, i)
  }

  /** The lines of the additions that are new, by file. */
  method CollectPromotable(hunkStart: string -> Option<int>, rawLines: seq<string>)
    returns (linesByPath: map<string, set<int>>)
    ensures var s := ReadDiff(hunkStart, rawLines);
      forall path, n :: LineIn(linesByPath, path, n) <==>
        exists i :: 0 <= i < |s.added| && ReallyAdded(s, i) && s.added[i].path == path && s.added[i].lineNumber == n
  {
    var s := NOTHING_READ;
    for i := 0 to |rawLines|
      invariant s == ReadDiff(hunkStart, rawLines[..i])
    {
      assert rawLines[..i + 1][..i] == rawLines[..i];
      s := Step(hunkStart, s, rawLines[i]);
    }
    assert rawLines[..|rawLines|] == rawLines;
    var paired, used := PairUp(AddedKeys(s.added), RemovedKeys(s.removed));
    PairingIsUnique(AddedKeys(s.added), paired, RemovedKeys(s.removed), used);
    var kept := Filter(AddedHunks(s.added), paired, s.headings, RemovedHunks(s.removed), used);
    assert forall i :: 0 <= i < |s.added| ==> (kept[i] <==> ReallyAdded(s, i));
    linesByPath := CollectLines(s.added, kept);
  }

  predicate KeptBefore(added: seq<Added>, kept: seq<bool>, k: nat, path: string, n: int)
    requires k <= |added| == |kept|
  {
    exists i :: 0 <= i < k && kept[i] && added[i].path == path && added[i].lineNumber == n
  }

  method CollectLines(added: seq<Added>, kept: seq<bool>) returns (lines: map<string, set<int>>)
    requires |added| == |kept|
    ensures forall path, n :: LineIn(lines, path, n) <==> KeptBefore(added, kept, |added|, path, n)
  {
    lines := map[];
    for k := 0 to |added|
      invariant forall path, n :: LineIn(lines, path, n) <==> KeptBefore(added, kept, k, path, n)
    {
      ghost var before := lines;
      var a := added[k];
      if kept[k] { lines := lines[a.path := (if a.path in lines then lines[a.path] else {}) + {a.lineNumber}]; }
      forall path, n ensures LineIn(lines, path, n) <==> KeptBefore(added, kept, k + 1, path, n) {
        assert LineIn(before, path, n) <==> KeptBefore(added, kept, k, path, n);
        assert KeptBefore(added, kept, k + 1, path, n) <==>
               KeptBefore(added, kept, k, path, n) || (kept[k] && a.path == path && a.lineNumber == n);
      }
    }
  }
}
