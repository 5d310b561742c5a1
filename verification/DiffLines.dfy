/** Where the lines of a diff stand: file, hunk, and line of the new file. */
module DiffLines {
  import opened Basics
  import opened ChangelogText
  import opened DiffPairing

  type HunkStart = string -> Option<int>

  predicate NamesFile(line: string) { "+++ b/" <= line }

  predicate OpensFile(line: string) { !NamesFile(line) && "diff --git " <= line }

  predicate OpensHunk(hunkStart: HunkStart, line: string) {
    !NamesFile(line) && !OpensFile(line) && hunkStart(line).Some?
  }

  /** The file named last, unless another file was opened since. */
  function FileOf(lines: seq<string>, i: nat): string
    requires i <= |lines|
  {
    if i == 0 then ""
    else if NamesFile(lines[i - 1]) then lines[i - 1][6..]
    else if OpensFile(lines[i - 1]) then "" else FileOf(lines, i - 1)
  }

  /** How many hunks were opened since the file was. */
  function HunksOf(hunkStart: HunkStart, lines: seq<string>, i: nat): nat
    requires i <= |lines|
  {
    if i == 0 || OpensFile(lines[i - 1]) then 0
    else HunksOf(hunkStart, lines, i - 1) + if OpensHunk(hunkStart, lines[i - 1]) then 1 else 0
  }

  /** A line of a hunk. */
  predicate InHunk(hunkStart: HunkStart, lines: seq<string>, i: int) {
    && 0 <= i < |lines| && !NamesFile(lines[i]) && !OpensFile(lines[i]) && !OpensHunk(hunkStart, lines[i])
    && lines[i] != "" && FileOf(lines, i) != "" && HunksOf(hunkStart, lines, i) > 0
  }

  function HunkOf(hunkStart: HunkStart, lines: seq<string>, i: nat): Hunk
    requires i <= |lines|
  {
    Hunk(FileOf(lines, i), HunksOf(hunkStart, lines, i) - 1)
  }

  /** A line of the new file: added, or unchanged. */
  predicate OnNewSide(hunkStart: HunkStart, lines: seq<string>, i: int) {
    InHunk(hunkStart, lines, i) && (lines[i][0] == '+' || lines[i][0] == ' ')
  }

  function CountNew(hunkStart: HunkStart, lines: seq<string>, h: nat, i: nat): nat
    requires i <= |lines|
    decreases i
  {
    if i <= h + 1 then 0
    else CountNew(hunkStart, lines, h, i - 1) + if OnNewSide(hunkStart, lines, i - 1) then 1 else 0
  }

  /** The hunk header at `h` is the last before line `i`. */
  predicate HeadedBy(hunkStart: HunkStart, lines: seq<string>, h: int, i: int) {
    && 0 <= h < i <= |lines| && OpensHunk(hunkStart, lines[h])
    && forall k :: h < k < i ==> !OpensHunk(hunkStart, lines[k])
  }

  /** Line `i` is number `n` of the new file: the hunk starts there, or as many lines of the new file later. */
  ghost predicate NumberedAt(hunkStart: HunkStart, lines: seq<string>, i: nat, n: int) {
    exists h: nat :: HeadedBy(hunkStart, lines, h, i)
                     && n == hunkStart(lines[h]).value + CountNew(hunkStart, lines, h, i)
  }

  predicate Adds(hunkStart: HunkStart, lines: seq<string>, i: int) {
    InHunk(hunkStart, lines, i) && lines[i][0] == '+' && IsListItem(lines[i][1..])
  }

  predicate Removes(hunkStart: HunkStart, lines: seq<string>, i: int) {
    InHunk(hunkStart, lines, i) && lines[i][0] == '-' && IsListItem(lines[i][1..])
  }

  /** The item that line `i` adds. */
  ghost predicate IsAdded(hunkStart: HunkStart, lines: seq<string>, i: int, a: Added) {
    && Adds(hunkStart, lines, i) && a.path == FileOf(lines, i) && a.hunk == HunkOf(hunkStart, lines, i)
    && a.text == lines[i][1..] && NumberedAt(hunkStart, lines, i, a.lineNumber)
  }

  predicate IsRemoved(hunkStart: HunkStart, lines: seq<string>, i: int, r: Removed) {
    && Removes(hunkStart, lines, i) && r.path == FileOf(lines, i) && r.hunk == HunkOf(hunkStart, lines, i)
    && r.text == lines[i][1..]
  }

  predicate Ascending(p: seq<nat>, n: nat) {
    (forall k :: 0 <= k < |p| ==> p[k] < n) && forall k, l :: 0 <= k < l < |p| ==> p[k] < p[l]
  }

  /** The additions are those of the lines `p`, which are all lines that add an item. */
  ghost predicate AddedAt(hunkStart: HunkStart, lines: seq<string>, added: seq<Added>, p: seq<nat>) {
    && |p| == |added| && Ascending(p, |lines|)
    && (forall k :: 0 <= k < |p| ==> IsAdded(hunkStart, lines, p[k], added[k]))
    && forall i :: Adds(hunkStart, lines, i) ==> i in p
  }

  ghost predicate RemovedAt(hunkStart: HunkStart, lines: seq<string>, removed: seq<Removed>, p: seq<nat>) {
    && |p| == |removed| && Ascending(p, |lines|)
    && (forall k :: 0 <= k < |p| ==> IsRemoved(hunkStart, lines, p[k], removed[k]))
    && forall i :: Removes(hunkStart, lines, i) ==> i in p
  }

  /** A hunk that adds a release heading. */
  ghost predicate AddsHeading(hunkStart: HunkStart, lines: seq<string>, h: Hunk) {
    exists i :: InHunk(hunkStart, lines, i) && "+## [" <= lines[i] && HunkOf(hunkStart, lines, i) == h
  }

  // ---- one line more ----

  lemma {:induction false} SameBefore(hunkStart: HunkStart, lines: seq<string>, more: seq<string>, i: nat)
    requires lines <= more && i <= |lines|
    ensures FileOf(more, i) == FileOf(lines, i) && HunksOf(hunkStart, more, i) == HunksOf(hunkStart, lines, i)
  {
    if i > 0 { SameBefore(hunkStart, lines, more, i - 1); }
  }

  lemma SameInHunk(hunkStart: HunkStart, lines: seq<string>, more: seq<string>, i: int)
    requires lines <= more && i < |lines|
    ensures InHunk(hunkStart, more, i) == InHunk(hunkStart, lines, i)
    ensures 0 <= i ==> HunkOf(hunkStart, more, i) == HunkOf(hunkStart, lines, i)
  {
    if 0 <= i { SameBefore(hunkStart, lines, more, i); }
  }

  lemma {:induction false} SameCount(hunkStart: HunkStart, lines: seq<string>, more: seq<string>, h: nat, i: nat)
    requires lines <= more && i <= |lines|
    ensures CountNew(hunkStart, more, h, i) == CountNew(hunkStart, lines, h, i)
    decreases i
  {
    if i > h + 1 {
      SameCount(hunkStart, lines, more, h, i - 1);
      SameInHunk(hunkStart, lines, more, i - 1);
    }
  }

  lemma SameNumber(hunkStart: HunkStart, lines: seq<string>, more: seq<string>, i: nat, n: int)
    requires lines <= more && i <= |lines| && NumberedAt(hunkStart, lines, i, n)
    ensures NumberedAt(hunkStart, more, i, n)
  {
    var h: nat :| HeadedBy(hunkStart, lines, h, i) && n == hunkStart(lines[h]).value + CountNew(hunkStart, lines, h, i);
    SameCount(hunkStart, lines, more, h, i);
    assert HeadedBy(hunkStart, more, h, i);
  }

  /** What the scan holds after the lines. */
  ghost predicate Holds(hunkStart: HunkStart, lines: seq<string>, s: Scan) {
    && StandsAt(hunkStart, lines, s)
    && ItemsAre(hunkStart, lines, s.added, s.removed)
    && HeadingsAre(hunkStart, lines, s.headings)
  }

  ghost predicate StandsAt(hunkStart: HunkStart, lines: seq<string>, s: Scan) {
    && s.path == FileOf(lines, |lines|) && s.hunkIndex == HunksOf(hunkStart, lines, |lines|) - 1
    && (s.hunkIndex >= 0 ==> NumberedAt(hunkStart, lines, |lines|, s.newLine))
  }

  ghost predicate ItemsAre(hunkStart: HunkStart, lines: seq<string>, added: seq<Added>, removed: seq<Removed>) {
    && (exists p :: AddedAt(hunkStart, lines, added, p))
    && exists p :: RemovedAt(hunkStart, lines, removed, p)
  }

  ghost predicate HeadingsAre(hunkStart: HunkStart, lines: seq<string>, headings: set<Hunk>) {
    forall h :: h in headings <==> AddsHeading(hunkStart, lines, h)
  }

  lemma NumberNext(hunkStart: HunkStart, lines: seq<string>, line: string, n: int)
    requires NumberedAt(hunkStart, lines, |lines|, n) && !OpensHunk(hunkStart, line)
    ensures var more := lines + [line];
      NumberedAt(hunkStart, more, |more|, n + if OnNewSide(hunkStart, more, |lines|) then 1 else 0)
  {
    var more := lines + [line];
    var h: nat :| HeadedBy(hunkStart, lines, h, |lines|)
      && n == hunkStart(lines[h]).value + CountNew(hunkStart, lines, h, |lines|);
    SameCount(hunkStart, lines, more, h, |lines|);
    assert HeadedBy(hunkStart, more, h, |more|);
  }

  lemma NumberStarts(hunkStart: HunkStart, lines: seq<string>, line: string)
    requires OpensHunk(hunkStart, line)
    ensures NumberedAt(hunkStart, lines + [line], |lines| + 1, hunkStart(line).value)
  {
    var more := lines + [line];
    assert HeadedBy(hunkStart, more, |lines|, |more|);
  }

  lemma AddedStays(hunkStart: HunkStart, lines: seq<string>, more: seq<string>, i: nat, a: Added)
    requires lines <= more && i < |lines| && IsAdded(hunkStart, lines, i, a)
    ensures IsAdded(hunkStart, more, i, a)
  {
    SameInHunk(hunkStart, lines, more, i);
    SameBefore(hunkStart, lines, more, i);
    SameNumber(hunkStart, lines, more, i, a.lineNumber);
  }

  lemma RemovedStays(hunkStart: HunkStart, lines: seq<string>, more: seq<string>, i: nat, r: Removed)
    requires lines <= more && i < |lines| && IsRemoved(hunkStart, lines, i, r)
    ensures IsRemoved(hunkStart, more, i, r)
  {
    SameInHunk(hunkStart, lines, more, i);
    SameBefore(hunkStart, lines, more, i);
  }

  lemma AscendingSnoc(p: seq<nat>, n: nat)
    requires Ascending(p, n)
    ensures Ascending(p, n + 1) && Ascending(p + [n], n + 1)
  {
  }

  lemma AddedNext(hunkStart: HunkStart, lines: seq<string>, more: seq<string>, n: nat, added: seq<Added>, p: seq<nat>,
                  a: Added)
    requires lines <= more && n == |lines| && |more| == n + 1 && AddedAt(hunkStart, lines, added, p)
    requires Adds(hunkStart, more, n) ==> IsAdded(hunkStart, more, n, a)
    ensures if Adds(hunkStart, more, n) then AddedAt(hunkStart, more, added + [a], p + [n])
            else AddedAt(hunkStart, more, added, p)
  {
    AscendingSnoc(p, n);
    forall k | 0 <= k < |p| ensures IsAdded(hunkStart, more, p[k], added[k]) {
      AddedStays(hunkStart, lines, more, p[k], added[k]);
    }
    forall i | Adds(hunkStart, more, i) && i != n ensures i in p { SameInHunk(hunkStart, lines, more, i); }
  }

  lemma AddedSome(hunkStart: HunkStart, lines: seq<string>, more: seq<string>, n: nat, added: seq<Added>, a: Added)
    returns (q: seq<nat>)
    requires lines <= more && n == |lines| && |more| == n + 1 && exists p :: AddedAt(hunkStart, lines, added, p)
    requires Adds(hunkStart, more, n) ==> IsAdded(hunkStart, more, n, a)
    ensures AddedAt(hunkStart, more, if Adds(hunkStart, more, n) then added + [a] else added, q)
  {
    var p :| AddedAt(hunkStart, lines, added, p);
    AddedNext(hunkStart, lines, more, n, added, p, a);
    q := if Adds(hunkStart, more, n) then p + [n] else p;
  }

  lemma RemovedNext(hunkStart: HunkStart, lines: seq<string>, more: seq<string>, n: nat, removed: seq<Removed>,
                    p: seq<nat>, r: Removed)
    requires lines <= more && n == |lines| && |more| == n + 1 && RemovedAt(hunkStart, lines, removed, p)
    requires Removes(hunkStart, more, n) ==> IsRemoved(hunkStart, more, n, r)
    ensures if Removes(hunkStart, more, n) then RemovedAt(hunkStart, more, removed + [r], p + [n])
            else RemovedAt(hunkStart, more, removed, p)
  {
    AscendingSnoc(p, n);
    forall k | 0 <= k < |p| ensures IsRemoved(hunkStart, more, p[k], removed[k]) {
      RemovedStays(hunkStart, lines, more, p[k], removed[k]);
    }
    forall i | Removes(hunkStart, more, i) && i != n ensures i in p { SameInHunk(hunkStart, lines, more, i); }
  }

  lemma RemovedSome(hunkStart: HunkStart, lines: seq<string>, more: seq<string>, n: nat, removed: seq<Removed>,
                    r: Removed)
    returns (q: seq<nat>)
    requires lines <= more && n == |lines| && |more| == n + 1 && exists p :: RemovedAt(hunkStart, lines, removed, p)
    requires Removes(hunkStart, more, n) ==> IsRemoved(hunkStart, more, n, r)
    ensures RemovedAt(hunkStart, more, if Removes(hunkStart, more, n) then removed + [r] else removed, q)
  {
    var p :| RemovedAt(hunkStart, lines, removed, p);
    RemovedNext(hunkStart, lines, more, n, removed, p, r);
    q := if Removes(hunkStart, more, n) then p + [n] else p;
  }

  lemma HeadingsNext(hunkStart: HunkStart, lines: seq<string>, more: seq<string>, n: nat, h: Hunk)
    requires lines <= more && n == |lines| && |more| == n + 1
    ensures AddsHeading(hunkStart, more, h) <==>
            AddsHeading(hunkStart, lines, h)
            || (InHunk(hunkStart, more, n) && "+## [" <= more[n] && HunkOf(hunkStart, more, n) == h)
  {
    if AddsHeading(hunkStart, lines, h) {
      var i :| InHunk(hunkStart, lines, i) && "+## [" <= lines[i] && HunkOf(hunkStart, lines, i) == h;
      SameInHunk(hunkStart, lines, more, i);
      assert InHunk(hunkStart, more, i) && "+## [" <= more[i];
    }
    if AddsHeading(hunkStart, more, h) {
      var i :| InHunk(hunkStart, more, i) && "+## [" <= more[i] && HunkOf(hunkStart, more, i) == h;
      if i < n { SameInHunk(hunkStart, lines, more, i); }
    }
  }

  /** What the step does to a line of a hunk. */
  lemma StepInHunk(hunkStart: HunkStart, s: Scan, line: string)
    requires !NamesFile(line) && !OpensFile(line) && !OpensHunk(hunkStart, line)
    requires line != "" && s.path != "" && s.hunkIndex >= 0
    ensures var t, h, text := Step(hunkStart, s, line), Hunk(s.path, s.hunkIndex), line[1..];
      && t.path == s.path && t.hunkIndex == s.hunkIndex
      && t.newLine == s.newLine + (if line[0] == '+' || line[0] == ' ' then 1 else 0)
      && t.added == (if line[0] == '+' && IsListItem(text) then s.added + [Added(s.path, s.newLine, text, h)]
                     else s.added)
      && t.removed == (if line[0] == '-' && IsListItem(text) then s.removed + [Removed(s.path, text, h)] else s.removed)
      && t.headings == if "+## [" <= line then s.headings + {h} else s.headings
  {
  }

  lemma StepElsewhere(hunkStart: HunkStart, s: Scan, line: string)
    requires NamesFile(line) || OpensFile(line) || OpensHunk(hunkStart, line) || line == "" || s.path == ""
             || s.hunkIndex < 0
    ensures var t := Step(hunkStart, s, line);
      && t.added == s.added && t.removed == s.removed && t.headings == s.headings
      && t.path == (if NamesFile(line) then line[6..] else if OpensFile(line) then "" else s.path)
      && t.hunkIndex == (if OpensFile(line) then -1
                         else if OpensHunk(hunkStart, line) then s.hunkIndex + 1 else s.hunkIndex)
      && t.newLine == if OpensHunk(hunkStart, line) then hunkStart(line).value else s.newLine
  {
  }

  lemma PlaceMore(hunkStart: HunkStart, lines: seq<string>, s: Scan, line: string)
    requires StandsAt(hunkStart, lines, s)
    ensures StandsAt(hunkStart, lines + [line], Step(hunkStart, s, line))
  {
    var more, n := lines + [line], |lines|;
    SameBefore(hunkStart, lines, more, n);
    if InHunk(hunkStart, more, n) { StepInHunk(hunkStart, s, line); } else { StepElsewhere(hunkStart, s, line); }
    if OpensHunk(hunkStart, line) {
      NumberStarts(hunkStart, lines, line);
    } else if s.hunkIndex >= 0 {
      NumberNext(hunkStart, lines, line, s.newLine);
    }
  }

  lemma HeadingsMore(hunkStart: HunkStart, lines: seq<string>, s: Scan, line: string)
    requires StandsAt(hunkStart, lines, s) && HeadingsAre(hunkStart, lines, s.headings)
    ensures HeadingsAre(hunkStart, lines + [line], Step(hunkStart, s, line).headings)
  {
    var more, n := lines + [line], |lines|;
    SameBefore(hunkStart, lines, more, n);
    if InHunk(hunkStart, more, n) { StepInHunk(hunkStart, s, line); } else { StepElsewhere(hunkStart, s, line); }
    HeadingsAdded(hunkStart, lines, more, n, s.headings, Step(hunkStart, s, line).headings);
  }

  lemma HeadingsAdded(hunkStart: HunkStart, lines: seq<string>, more: seq<string>, n: nat, before: set<Hunk>,
                      after: set<Hunk>)
    requires lines <= more && n == |lines| && |more| == n + 1 && HeadingsAre(hunkStart, lines, before)
    requires after == if InHunk(hunkStart, more, n) && "+## [" <= more[n] then before + {HunkOf(hunkStart, more, n)}
                      else before
    ensures HeadingsAre(hunkStart, more, after)
  {
    forall h ensures h in after <==> AddsHeading(hunkStart, more, h) { HeadingsNext(hunkStart, lines, more, n, h); }
  }

  lemma OneMore(hunkStart: HunkStart, lines: seq<string>, s: Scan, line: string)
    requires Holds(hunkStart, lines, s)
    ensures Holds(hunkStart, lines + [line], Step(hunkStart, s, line))
  {
    PlaceMore(hunkStart, lines, s, line);
    ItemsMore(hunkStart, lines, s, line);
    HeadingsMore(hunkStart, lines, s, line);
  }

  /** The scan knows whether the next line is one of a hunk, of which, and its number. */
  lemma NextLine(hunkStart: HunkStart, lines: seq<string>, more: seq<string>, s: Scan, n: nat)
    requires StandsAt(hunkStart, lines, s) && lines <= more && n == |lines| && |more| == n + 1
    ensures FileOf(more, n) == s.path && HunkOf(hunkStart, more, n) == Hunk(s.path, s.hunkIndex)
    ensures InHunk(hunkStart, more, n) <==>
      !NamesFile(more[n]) && !OpensFile(more[n]) && !OpensHunk(hunkStart, more[n])
      && more[n] != "" && s.path != "" && s.hunkIndex >= 0
    ensures s.hunkIndex >= 0 ==> NumberedAt(hunkStart, more, n, s.newLine)
  {
    SameBefore(hunkStart, lines, more, n);
    if s.hunkIndex >= 0 { SameNumber(hunkStart, lines, more, n, s.newLine); }
  }

  lemma ItemsMore(hunkStart: HunkStart, lines: seq<string>, s: Scan, line: string)
    requires StandsAt(hunkStart, lines, s) && ItemsAre(hunkStart, lines, s.added, s.removed)
    ensures var t := Step(hunkStart, s, line); ItemsAre(hunkStart, lines + [line], t.added, t.removed)
  {
    var more, n := lines + [line], |lines|;
    assert more[n] == line && lines <= more;
    var text, hunk := if line == "" then "" else line[1..], Hunk(s.path, s.hunkIndex);
    NextLine(hunkStart, lines, more, s, n);
    if InHunk(hunkStart, more, n) { StepInHunk(hunkStart, s, line); } else { StepElsewhere(hunkStart, s, line); }
    ItemsAdded(hunkStart, lines, more, n, s.added, s.removed, Added(s.path, s.newLine, text, hunk),
               Removed(s.path, text, hunk));
  }

  lemma ItemsAdded(hunkStart: HunkStart, lines: seq<string>, more: seq<string>, n: nat, added: seq<Added>,
                   removed: seq<Removed>, a: Added, r: Removed)
    requires lines <= more && n == |lines| && |more| == n + 1 && ItemsAre(hunkStart, lines, added, removed)
    requires Adds(hunkStart, more, n) ==> IsAdded(hunkStart, more, n, a)
    requires Removes(hunkStart, more, n) ==> IsRemoved(hunkStart, more, n, r)
    ensures ItemsAre(hunkStart, more, if Adds(hunkStart, more, n) then added + [a] else added,
                     if Removes(hunkStart, more, n) then removed + [r] else removed)
  {
    var p := AddedSome(hunkStart, lines, more, n, added, a);
    var q := RemovedSome(hunkStart, lines, more, n, removed, r);
  }

  /** What is read from a diff, straight from its lines. */
  lemma {:induction false} ReadDiffHolds(hunkStart: HunkStart, lines: seq<string>)
    ensures Holds(hunkStart, lines, ReadDiff(hunkStart, lines))
  {
    if lines == [] {
      var none: seq<nat> := [];
      assert AddedAt(hunkStart, lines, [], none) && RemovedAt(hunkStart, lines, [], none);
    } else {
      var init, last := lines[..|lines| - 1], lines[|lines| - 1];
      ReadDiffHolds(hunkStart, init);
      OneMore(hunkStart, init, ReadDiff(hunkStart, init), last);
      assert init + [last] == lines;
    }
  }
}
