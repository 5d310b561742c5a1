/** Applying byte-span replacements to a UTF-8 text by splicing from right to left. */
module ApplyEdits {
  import opened Sorting
  import opened Utf8

  const USIZE_MAX := 0xFFFF_FFFF_FFFF_FFFF
  /** No string is longer than this. */
  const ISIZE_MAX := 0x7FFF_FFFF_FFFF_FFFF

  type Usize = n: int | 0 <= n <= USIZE_MAX

  datatype Edit = Edit(position: Usize, deleted: Usize, inserted: seq<Byte>)

  /** `Panics` stands for splicing in the middle of a character, which aborts. */
  datatype Applied = Done(output: seq<Byte>) | Overlapping | OutOfBounds | NotUtf8 | Panics

  function End(e: Edit): Usize {
    if e.position + e.deleted > USIZE_MAX then USIZE_MAX else e.position + e.deleted
  }

  // ---- the sort order ----

  predicate LexLess(a: seq<Byte>, b: seq<Byte>) {
    b != [] && (a == [] || a[0] < b[0] || (a[0] == b[0] && LexLess(a[1..], b[1..])))
  }

  lemma {:induction false} LexTrichotomy(a: seq<Byte>, b: seq<Byte>)
    ensures LexLess(a, b) || a == b || LexLess(b, a)
    ensures !(LexLess(a, b) && LexLess(b, a)) && (a == b ==> !LexLess(a, b))
    decreases |a|
  {
    if a != [] && b != [] && a[0] == b[0] {
      LexTrichotomy(a[1..], b[1..]);
      assert a == [a[0]] + a[1..] && b == [b[0]] + b[1..];
    }
  }

  lemma {:induction false} LexTransitive(a: seq<Byte>, b: seq<Byte>, c: seq<Byte>)
    requires LexLess(a, b) && LexLess(b, c)
    ensures LexLess(a, c)
    decreases |a|
  {
    if a != [] && a[0] == b[0] == c[0] { LexTransitive(a[1..], b[1..], c[1..]); }
  }

  predicate Before(a: Edit, b: Edit) {
    || a.position < b.position
    || (a.position == b.position && a.deleted < b.deleted)
    || (a.position == b.position && a.deleted == b.deleted && LexLess(a.inserted, b.inserted))
  }

  lemma BeforeIsTotal(a: Edit, b: Edit)
    ensures Before(a, b) || a == b || Before(b, a)
    ensures !(Before(a, b) && Before(b, a)) && !Before(a, a)
  {
    LexTrichotomy(a.inserted, b.inserted);
    LexTrichotomy(a.inserted, a.inserted);
  }

  lemma BeforeIsTransitive(a: Edit, b: Edit, c: Edit)
    requires Before(a, b) && Before(b, c)
    ensures Before(a, c)
  {
    if LexLess(a.inserted, b.inserted) && LexLess(b.inserted, c.inserted) {
      LexTransitive(a.inserted, b.inserted, c.inserted);
    }
  }

  predicate Strict(es: seq<Edit>) {
    forall i, j :: 0 <= i < j < |es| ==> Before(es[i], es[j])
  }

  ghost predicate SameMembers(a: seq<Edit>, b: seq<Edit>) {
    forall e :: e in a <==> e in b
  }

  /** There is only one strictly sorted list of a given set of edits. */
  lemma {:induction false} StrictIsUnique(a: seq<Edit>, b: seq<Edit>)
    requires Strict(a) && Strict(b) && SameMembers(a, b)
    ensures a == b
    decreases |a|
  {
    assert a != [] ==> a[0] in a;
    assert b != [] ==> b[0] in b;
    if a != [] {
      HeadsAgree(a, b);
      assert SameMembers(a[1..], b[1..]) by {
        forall e ensures e in a[1..] <==> e in b[1..] {
          BeforeIsTotal(a[0], a[0]);
          assert a == [a[0]] + a[1..] && b == [b[0]] + b[1..];
          assert e in a <==> e == a[0] || e in a[1..];
          assert e in b <==> e == b[0] || e in b[1..];
        }
      }
      StrictIsUnique(a[1..], b[1..]);
      assert a == [a[0]] + a[1..] && b == [b[0]] + b[1..];
    }
  }

  lemma HeadsAgree(a: seq<Edit>, b: seq<Edit>)
    requires Strict(a) && Strict(b) && SameMembers(a, b) && a != [] && b != []
    ensures a[0] == b[0]
  {
    assert a[0] in b && b[0] in a;
    var i :| 0 <= i < |b| && b[i] == a[0];
    var j :| 0 <= j < |a| && a[j] == b[0];
    BeforeIsTotal(a[0], b[0]);
  }

  function SortEdits(es: seq<Edit>): seq<Edit> {
    Sort((a, b) => Before(a, b), es)
  }

  predicate Ascending(es: seq<Edit>) {
    forall i, j :: 0 <= i < j < |es| ==> !Before(es[j], es[i])
  }

  lemma SortIsSorted(es: seq<Edit>)
    ensures Ascending(SortEdits(es)) && SameMembers(SortEdits(es), es)
  {
    var lt := (a, b) => Before(a, b);
    assert Ordering(lt) by {
      forall a, b ensures lt(a, b) ==> !lt(b, a) { BeforeIsTotal(a, b); }
      forall a, b, c | !lt(b, a) && !lt(c, b) ensures !lt(c, a) {
        BeforeIsTotal(a, b);
        BeforeIsTotal(b, c);
        BeforeIsTotal(a, c);
        if Before(c, a) && Before(a, b) { BeforeIsTransitive(c, a, b); }
      }
    }
    SortSorts(lt, es);
    SortPermutes(lt, es);
  }

  /** Drops each element equal to the one kept before it. */
  function Deduped(es: seq<Edit>): seq<Edit> {
    if |es| <= 1 then es
    else
      var kept := Deduped(es[..|es| - 1]);
      if es[|es| - 1] == es[|es| - 2] then kept else kept + [es[|es| - 1]]
  }

  lemma {:induction false} DedupedIsStrict(es: seq<Edit>)
    requires Ascending(es)
    ensures Strict(Deduped(es)) && SameMembers(Deduped(es), es)
    ensures es != [] ==> Deduped(es) != [] && Deduped(es)[|Deduped(es)| - 1] == es[|es| - 1]
    decreases |es|
  {
    if |es| > 1 {
      var init, last := es[..|es| - 1], es[|es| - 1];
      DedupedIsStrict(init);
      assert es == init + [last] && init[|init| - 1] == es[|es| - 2];
      var kept := Deduped(init);
      if last != es[|es| - 2] {
        BeforeIsTotal(last, es[|es| - 2]);
        forall i | 0 <= i < |kept| ensures Before(kept[i], last) {
          if i < |kept| - 1 { BeforeIsTransitive(kept[i], kept[|kept| - 1], last); }
        }
      }
    }
  }

  function Canonical(edits: seq<Edit>): seq<Edit> { Deduped(SortEdits(edits)) }

  // ---- the result ----

  predicate Disjoint(es: seq<Edit>) {
    forall i :: 0 < i < |es| ==> End(es[i - 1]) <= es[i].position
  }

  function Replaced(s: seq<Byte>, e: Edit): seq<Byte>
    requires e.position <= End(e) <= |s|
  {
    s[..e.position] + e.inserted + s[End(e)..]
  }

  /** The splices, last edit first, on the string they mutate. */
  ghost function SpliceBack(output: seq<Byte>, es: seq<Edit>): Applied
    decreases |es|
  {
    if es == [] then Done(output)
    else
      var e := es[|es| - 1];
      if End(e) > |output| then OutOfBounds
      else if !ValidUtf8(e.inserted) then NotUtf8
      else if !IsBoundary(output, e.position) || !IsBoundary(output, End(e)) then Panics
      else SpliceBack(Replaced(output, e), es[..|es| - 1])
  }

  ghost function Result(content: seq<Byte>, edits: seq<Edit>): Applied {
    var es := Canonical(edits);
    if Disjoint(es) then SpliceBack(content, es) else Overlapping
  }

  method DedupInPlace(es: seq<Edit>) returns (kept: seq<Edit>)
    ensures kept == Deduped(es)
  {
    if es == [] { return []; }
    kept := [es[0]];
    assert es[..1] == [es[0]];
    for i := 1 to |es|
      invariant kept == Deduped(es[..i])
    {
      assert es[..i + 1][..i] == es[..i];
      if es[i] != es[i - 1] { kept := kept + [es[i]]; }
    }
    assert es[..|es|] == es;
  }

  /** The scan for overlaps, on sorted edits without duplicates. */
  method ScanOverlaps(sorted: seq<Edit>) returns (disjoint: bool)
    ensures disjoint == Disjoint(sorted)
  {
    var prevEnd := 0;
    for i := 0 to |sorted|
      invariant prevEnd == if i == 0 then 0 else End(sorted[i - 1])
      invariant forall k :: 0 < k < i ==> End(sorted[k - 1]) <= sorted[k].position
    {
      if sorted[i].position < prevEnd {
        assert !(End(sorted[i - 1]) <= sorted[i].position);
        return false;
      }
      prevEnd := End(sorted[i]);
    }
    disjoint := true;
  }

  /** Sort, drop duplicates, scan for overlaps, then splice into the string from the right. */
  method Apply(content: seq<Byte>, edits: seq<Edit>) returns (r: Applied)
    ensures r == Result(content, edits)
  {
    var sorted := SortEdits(edits);
    sorted := DedupInPlace(sorted);
    var disjoint := ScanOverlaps(sorted);
    if !disjoint { return Overlapping; }
    var output := content;
    var i := |sorted|;
    assert sorted[..|sorted|] == sorted;
    while i > 0
      invariant 0 <= i <= |sorted|
      invariant SpliceBack(output, sorted[..i]) == SpliceBack(content, sorted)
    {
      i := i - 1;
      var edit := sorted[i];
      assert sorted[..i + 1][..i] == sorted[..i];
      if End(edit) > |output| { return OutOfBounds; }
      var valid := FromUtf8(edit.inserted);
      if !valid { return NotUtf8; }
      if !IsBoundary(output, edit.position) || !IsBoundary(output, End(edit)) { return Panics; }
      output := output[..edit.position] + edit.inserted + output[End(edit)..];
    }
    r := Done(output);
  }

  // ---- what the result means ----

  /** The result depends on the set of edits alone. */
  lemma {:induction false} OnlyTheSetMatters(content: seq<Byte>, a: seq<Edit>, b: seq<Edit>)
    requires SameMembers(a, b)
    ensures Result(content, a) == Result(content, b)
  {
    CanonicalFacts(a);
    CanonicalFacts(b);
    StrictIsUnique(Canonical(a), Canonical(b));
  }

  lemma CanonicalFacts(edits: seq<Edit>)
    ensures Strict(Canonical(edits)) && SameMembers(Canonical(edits), edits)
  {
    SortIsSorted(edits);
    DedupedIsStrict(SortEdits(edits));
  }

  /** Two edits collide when each starts before the other ends. */
  predicate Collide(a: Edit, b: Edit) {
    a.position < End(b) && b.position < End(a)
  }

  predicate AnyCollision(edits: seq<Edit>) {
    exists a, b :: a in edits && b in edits && a != b && Collide(a, b)
  }

  lemma {:induction false} EndsInOrder(es: seq<Edit>, i: nat, j: nat)
    requires Disjoint(es) && i < j < |es|
    ensures End(es[i]) <= es[j].position
    decreases j
  {
    if i < j - 1 { EndsInOrder(es, i, j - 1); }
  }

  lemma {:induction false} ScanFindsCollisions(es: seq<Edit>)
    requires Strict(es)
    ensures Disjoint(es) <==> !AnyCollision(es)
  {
    if Disjoint(es) {
      forall a, b | a in es && b in es && a != b ensures !Collide(a, b) {
        var i :| 0 <= i < |es| && es[i] == a;
        var j :| 0 <= j < |es| && es[j] == b;
        if i < j { EndsInOrder(es, i, j); } else { EndsInOrder(es, j, i); }
      }
    } else {
      var i :| 0 < i < |es| && !(End(es[i - 1]) <= es[i].position);
      assert Before(es[i - 1], es[i]);
      BeforeIsTotal(es[i - 1], es[i]);
      assert Collide(es[i - 1], es[i]);
    }
  }

  /** An edit that can be applied to `content` on its own. */
  ghost predicate Applicable(content: seq<Byte>, e: Edit) {
    && e.position + e.deleted <= |content|
    && ValidUtf8(e.inserted)
    && IsBoundary(content, e.position) && IsBoundary(content, e.position + e.deleted)
  }

  /** `es` lie one after the other in `content[from..]`. */
  predicate Laid(content: seq<Byte>, es: seq<Edit>, from: nat) {
    && from <= |content| <= ISIZE_MAX
    && Disjoint(es) && (forall e :: e in es ==> e.position + e.deleted <= |content|)
    && (es != [] ==> from <= es[0].position)
  }

  lemma LaidTail(content: seq<Byte>, es: seq<Edit>, from: nat)
    requires Laid(content, es, from) && es != []
    ensures es[0].position <= End(es[0]) == es[0].position + es[0].deleted <= |content|
    ensures Laid(content, es[1..], End(es[0]))
  {
    assert es[0] in es;
    if |es| > 1 { assert End(es[0]) <= es[1].position; }
  }

  /** The kept gaps and the insertions, left to right, from byte `from` on. */
  function Weave(content: seq<Byte>, es: seq<Edit>, from: nat): seq<Byte>
    requires Laid(content, es, from)
    decreases |es|
  {
    if es == [] then content[from..]
    else
      LaidTail(content, es, from);
      content[from..es[0].position] + es[0].inserted + Weave(content, es[1..], End(es[0]))
  }

  lemma {:induction false} WeaveFromZero(content: seq<Byte>, es: seq<Edit>, from: nat)
    requires Laid(content, es, from)
    ensures Weave(content, es, 0) == content[..from] + Weave(content, es, from)
  {
    if es == [] {
      assert content == content[..from] + content[from..];
    } else {
      LaidTail(content, es, from);
      assert content[0..es[0].position] == content[..from] + content[from..es[0].position];
    }
  }

  ghost predicate AllApplicable(content: seq<Byte>, es: seq<Edit>) {
    forall e :: e in es ==> Applicable(content, e)
  }

  lemma {:induction false} WeaveIsValid(content: seq<Byte>, es: seq<Edit>, from: nat)
    requires ValidUtf8(content) && Laid(content, es, from) && IsBoundary(content, from) && AllApplicable(content, es)
    ensures ValidUtf8(Weave(content, es, from))
    decreases |es|
  {
    SplitIsValid(content, from);
    if es != [] {
      var e := es[0];
      assert Applicable(content, e);
      LaidTail(content, es, from);
      WeaveIsValid(content, es[1..], End(e));
      GapIsValid(content, from, e.position);
      ConcatIsValid(content[from..e.position], e.inserted);
      ConcatIsValid(content[from..e.position] + e.inserted, Weave(content, es[1..], End(e)));
    }
  }

  lemma GapIsValid(content: seq<Byte>, from: nat, to: nat)
    requires ValidUtf8(content) && from <= to <= |content| && IsBoundary(content, from) && IsBoundary(content, to)
    ensures ValidUtf8(content[from..to])
  {
    SplitIsValid(content, from);
    var rest := content[from..];
    assert IsBoundary(rest, to - from);
    SplitIsValid(rest, to - from);
    assert rest[..to - from] == content[from..to];
  }

  /** Up to the first edit already applied, the mutated string has the content's boundaries. */
  lemma BoundariesSurvive(content: seq<Byte>, es: seq<Edit>, i: nat)
    requires ValidUtf8(content) && Laid(content, es, i) && AllApplicable(content, es)
    ensures i <= |Weave(content, es, 0)|
    ensures IsBoundary(Weave(content, es, 0), i) <==> IsBoundary(content, i)
  {
    var output := Weave(content, es, 0);
    WeaveFromZero(content, es, i);
    if es != [] {
      var q := es[0].position;
      assert Applicable(content, es[0]);
      LaidTail(content, es, i);
      if i < q {
        assert output[i] == content[i];
      } else {
        BoundaryBefore(content, es);
      }
    }
  }

  /** The place of an edit is a boundary of the mutated string. */
  lemma BoundaryBefore(content: seq<Byte>, es: seq<Edit>)
    requires ValidUtf8(content) && es != [] && Laid(content, es, es[0].position) && AllApplicable(content, es)
    ensures es[0].position <= |Weave(content, es, 0)| && IsBoundary(Weave(content, es, 0), es[0].position)
  {
    var q := es[0].position;
    assert Applicable(content, es[0]);
    WeaveFromZero(content, es, q);
    var tail := Weave(content, es, q);
    WeaveIsValid(content, es, q);
    if tail != [] {
      assert Weave(content, es, 0)[q] == tail[0];
      FirstChar(tail);
    }
  }

  lemma ReplacedWeave(content: seq<Byte>, e: Edit, rest: seq<Edit>)
    requires Laid(content, [e] + rest, 0)
    ensures Laid(content, rest, End(e)) && e.position <= End(e) <= |Weave(content, rest, 0)|
    ensures Replaced(Weave(content, rest, 0), e) == Weave(content, [e] + rest, 0)
  {
    var es := [e] + rest;
    assert es[1..] == rest;
    LaidTail(content, es, 0);
    WeaveFromZero(content, rest, End(e));
    var output := Weave(content, rest, 0);
    assert output[..e.position] == content[0..e.position];
    assert output[End(e)..] == Weave(content, rest, End(e));
  }

  /** One splice: whether it succeeds depends on the original content alone. */
  lemma SpliceStep(content: seq<Byte>, e: Edit, rest: seq<Edit>)
    requires ValidUtf8(content) && Laid(content, [e] + rest, 0) && Laid(content, rest, 0)
             && AllApplicable(content, rest)
    ensures var output := Weave(content, rest, 0);
      && e.position <= End(e) <= |output|
      && (Applicable(content, e) <==>
            ValidUtf8(e.inserted) && IsBoundary(output, e.position) && IsBoundary(output, End(e)))
      && Replaced(output, e) == Weave(content, [e] + rest, 0)
  {
    LaidTail(content, [e] + rest, 0);
    ReplacedWeave(content, e, rest);
    BoundariesSurvive(content, rest, e.position);
    BoundariesSurvive(content, rest, End(e));
  }

  lemma LaidSuffix(content: seq<Byte>, es: seq<Edit>, k: nat)
    requires Laid(content, es, 0) && k <= |es|
    ensures Laid(content, es[k..], 0)
  {
    forall i | 0 < i < |es| - k ensures End(es[k..][i - 1]) <= es[k..][i].position {
      assert es[k..][i - 1] == es[k + i - 1] && es[k..][i] == es[k + i];
    }
  }

  /** The edit at `i` cannot be applied, while all behind it can; `r` says what is wrong with it. */
  ghost predicate FailsAt(content: seq<Byte>, es: seq<Edit>, i: nat, r: Applied) {
    && i < |es| && !Applicable(content, es[i]) && (forall j :: i < j < |es| ==> Applicable(content, es[j]))
    && r == if ValidUtf8(es[i].inserted) then Panics else NotUtf8
  }

  ghost predicate LastFailureDecides(content: seq<Byte>, es: seq<Edit>, r: Applied) {
    exists i: nat :: FailsAt(content, es, i, r)
  }

  /** Splicing `es[..k]` into a string where `es[k..]` are already in place. */
  lemma {:induction false} SpliceBackFrom(content: seq<Byte>, es: seq<Edit>, k: nat)
    requires ValidUtf8(content) && Laid(content, es, 0) && k <= |es| && AllApplicable(content, es[k..])
    ensures Laid(content, es[k..], 0)
    ensures var r := SpliceBack(Weave(content, es[k..], 0), es[..k]);
      if AllApplicable(content, es) then r == Done(Weave(content, es, 0)) else LastFailureDecides(content, es, r)
    decreases k
  {
    LaidSuffix(content, es, k);
    if k == 0 {
      assert es[0..] == es;
    } else {
      var e, rest := es[k - 1], es[k..];
      SuffixGrows(es, k);
      LaidSuffix(content, es, k - 1);
      SpliceStep(content, e, rest);
      SpliceLast(Weave(content, rest, 0), es[..k]);
      if Applicable(content, e) {
        assert AllApplicable(content, es[k - 1..]);
        SpliceBackFrom(content, es, k - 1);
      } else {
        assert e in es;
        forall j | k - 1 < j < |es| ensures Applicable(content, es[j]) { assert es[k..][j - k] == es[j]; }
        assert FailsAt(content, es, k - 1, SpliceBack(Weave(content, rest, 0), es[..k]));
      }
    }
  }

  lemma SuffixGrows(es: seq<Edit>, k: nat)
    requires 0 < k <= |es|
    ensures es[..k][..k - 1] == es[..k - 1] && es[..k][k - 1] == es[k - 1] && es[k - 1..] == [es[k - 1]] + es[k..]
  {
  }

  /** One splice, from the right. */
  lemma SpliceLast(output: seq<Byte>, es: seq<Edit>)
    requires es != [] && End(es[|es| - 1]) <= |output|
    ensures var e := es[|es| - 1];
      SpliceBack(output, es) ==
        if !ValidUtf8(e.inserted) then NotUtf8
        else if !IsBoundary(output, e.position) || !IsBoundary(output, End(e)) then Panics
        else SpliceBack(Replaced(output, e), es[..|es| - 1])
  {
  }

  /** Only the last edit of a disjoint list can end past the content. */
  lemma {:induction false} LastEndsLast(es: seq<Edit>, e: Edit)
    requires Disjoint(es) && e in es
    ensures End(e) <= End(es[|es| - 1])
  {
    var i :| 0 <= i < |es| && es[i] == e;
    if i < |es| - 1 { EndsInOrder(es, i, |es| - 1); }
  }

  predicate EndsPast(edits: seq<Edit>, length: nat) {
    exists e :: e in edits && e.position + e.deleted > length
  }

  // ---- the order, read off the edits ----

  /** At the first place where the texts differ, `a` has the smaller byte, or ends. */
  ghost predicate TextBefore(a: seq<Byte>, b: seq<Byte>) {
    exists k: nat :: FirstDifference(a, b, k) && (k == |a| || a[k] < b[k])
  }

  predicate FirstDifference(a: seq<Byte>, b: seq<Byte>, k: nat) {
    k <= |a| && k < |b| && (forall i :: 0 <= i < k ==> a[i] == b[i]) && (k < |a| ==> a[k] != b[k])
  }

  /** `a` comes first by position; then by what it deletes; then by what it inserts. */
  ghost predicate Precedes(a: Edit, b: Edit) {
    a.position <= b.position &&
    (a.position == b.position ==>
       a.deleted <= b.deleted && (a.deleted == b.deleted ==> TextBefore(a.inserted, b.inserted)))
  }

  lemma {:induction false} LexIsTextBefore(a: seq<Byte>, b: seq<Byte>)
    ensures LexLess(a, b) <==> TextBefore(a, b)
    decreases |a|
  {
    if a != [] && b != [] && a[0] == b[0] {
      LexIsTextBefore(a[1..], b[1..]);
      if k: nat :| FirstDifference(a[1..], b[1..], k) && (k == |a| - 1 || a[1..][k] < b[1..][k]) {
        assert forall i :: 0 < i < k + 1 ==> a[i] == a[1..][i - 1] && b[i] == b[1..][i - 1];
        assert FirstDifference(a, b, k + 1);
      }
      if k: nat :| FirstDifference(a, b, k) && (k == |a| || a[k] < b[k]) {
        assert FirstDifference(a[1..], b[1..], k - 1);
      }
    } else if LexLess(a, b) {
      assert FirstDifference(a, b, 0);
    }
  }

  lemma BeforeIsPrecedes(a: Edit, b: Edit)
    ensures Before(a, b) <==> Precedes(a, b)
  {
    LexIsTextBefore(a.inserted, b.inserted);
  }

  /** The edits, each once, in the order in which they stand in the output. */
  ghost predicate InOrder(edits: seq<Edit>, es: seq<Edit>) {
    SameMembers(es, edits) && forall i, j :: 0 <= i < j < |es| ==> es[i] != es[j] && Precedes(es[i], es[j])
  }

  lemma InOrderIsStrict(edits: seq<Edit>, es: seq<Edit>)
    ensures InOrder(edits, es) <==> Strict(es) && SameMembers(es, edits)
  {
    forall i, j | 0 <= i < j < |es| ensures Before(es[i], es[j]) <==> es[i] != es[j] && Precedes(es[i], es[j]) {
      BeforeIsPrecedes(es[i], es[j]);
      BeforeIsTotal(es[i], es[j]);
    }
  }

  /** The exact outcome for every list of edits. Bounds are tested against the string being
      mutated, yet only the original length decides; and the string stays well-formed UTF-8. */
  lemma {:induction false} ResultMeaning(content: seq<Byte>, edits: seq<Edit>)
    requires ValidUtf8(content) && |content| <= ISIZE_MAX
    ensures var r := Result(content, edits);
      && (r.Overlapping? <==> AnyCollision(edits))
      && (r.OutOfBounds? <==> !AnyCollision(edits) && EndsPast(edits, |content|))
      && (r.Done? <==> !AnyCollision(edits) && AllApplicable(content, edits))
      && (r.Done? ==> ValidUtf8(r.output))
    ensures exists es :: InOrder(edits, es)
    ensures forall es :: InOrder(edits, es) ==> OutcomeOf(content, es, Result(content, edits))
  {
    var es := Canonical(edits);
    CanonicalFacts(edits);
    ScanFindsCollisions(es);
    assert AnyCollision(es) <==> AnyCollision(edits);
    InOrderIsStrict(edits, es);
    if Disjoint(es) {
      if EndsPast(edits, |content|) { PastTheEnd(content, edits, es); } else { InsideSplices(content, edits, es); }
    }
    forall other | InOrder(edits, other) ensures OutcomeOf(content, other, Result(content, edits)) {
      InOrderIsStrict(edits, other);
      StrictIsUnique(other, es);
    }
  }

  /** The output weaves the edits into the content in their order; if one cannot be applied, the last such decides. */
  ghost predicate OutcomeOf(content: seq<Byte>, es: seq<Edit>, r: Applied) {
    && (r.Done? ==> Laid(content, es, 0) && r.output == Weave(content, es, 0))
    && (r.NotUtf8? || r.Panics? ==> LastFailureDecides(content, es, r))
  }

  lemma PastTheEnd(content: seq<Byte>, edits: seq<Edit>, es: seq<Edit>)
    requires Disjoint(es) && SameMembers(es, edits) && EndsPast(edits, |content|) && |content| <= ISIZE_MAX
    ensures SpliceBack(content, es) == OutOfBounds && !AllApplicable(content, edits)
  {
    var e :| e in edits && e.position + e.deleted > |content|;
    assert e in es;
    LastEndsLast(es, e);
    TooLongFails(content, es);
    assert !Applicable(content, e);
  }

  lemma TooLongFails(content: seq<Byte>, es: seq<Edit>)
    requires es != [] && End(es[|es| - 1]) > |content|
    ensures SpliceBack(content, es) == OutOfBounds
  {
  }

  lemma InsideSplices(content: seq<Byte>, edits: seq<Edit>, es: seq<Edit>)
    requires ValidUtf8(content) && Disjoint(es) && SameMembers(es, edits) && !EndsPast(edits, |content|)
    requires Laid(content, es, 0)
    ensures var r := SpliceBack(content, es);
      if AllApplicable(content, edits) then r == Done(Weave(content, es, 0)) && ValidUtf8(r.output)
      else LastFailureDecides(content, es, r)
  {
    assert es[|es|..] == [] && es[..|es|] == es && content[0..] == content;
    SpliceBackFrom(content, es, |es|);
    if SpliceBack(content, es).Done? { WeaveIsValid(content, es, 0); }
  }
}
