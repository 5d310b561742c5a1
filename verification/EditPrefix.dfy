/** Which lines an edit prefix can hold, said of the lines themselves. */
module EditPrefix {
  import opened PythonText
  import opened EditBoundary

  // ---- what a line is, by the lines before it ----

  /** Nothing but blank lines up to line `i`. */
  ghost predicate Lead(spans: seq<Span>, i: int) {
    0 <= i < |spans| && forall j :: 0 <= j <= i ==> Blank(spans[j].line)
  }

  ghost predicate MarkerAt(g: Grammar, spans: seq<Span>, i: int) {
    0 <= i < |spans| && !Lead(spans, i) && (g.beginPatch(spans[i].line) || g.endPatch(spans[i].line))
  }

  ghost predicate HeadAt(g: Grammar, spans: seq<Span>, i: int) {
    0 <= i < |spans| && !Lead(spans, i) && !MarkerAt(g, spans, i) && g.header(spans[i].line).Some?
  }

  ghost predicate PlainAt(g: Grammar, spans: seq<Span>, i: int) {
    0 <= i < |spans| && !Lead(spans, i) && !MarkerAt(g, spans, i) && !HeadAt(g, spans, i)
  }

  /** `h` is the last header before line `i`. */
  ghost predicate Under(g: Grammar, spans: seq<Span>, h: int, i: int) {
    h < i && HeadAt(g, spans, h) && forall k :: h < k < i ==> !HeadAt(g, spans, k)
  }

  function FormatOf(g: Grammar, span: Span): Format
    requires g.header(span.line).Some?
  {
    g.header(span.line).value.format
  }

  /** An insert, or a range. */
  predicate NewOp(g: Grammar, line: string) { g.newInsert(line).Some? || g.newRange(line).Some? }

  /** An insert or a replacing range, which payload may follow. */
  ghost predicate OpensNew(g: Grammar, spans: seq<Span>, j: int) {
    && PlainAt(g, spans, j) && !Blank(spans[j].line)
    && (g.newInsert(spans[j].line).Some?
        || (g.newRange(spans[j].line).Some? && g.newRange(spans[j].line).value.replacing))
  }

  /** Neither an operation nor the start of a header. */
  ghost predicate LooseNew(g: Grammar, spans: seq<Span>, k: int) {
    && PlainAt(g, spans, k) && !NewOp(g, spans[k].line)
    && !(spans[k].line != "" && spans[k].line[0] == '\U{00b6}')
  }

  /** Only loose lines stand between an operation that takes payload and line `i`. */
  ghost predicate NewRun(g: Grammar, spans: seq<Span>, h: int, i: int) {
    exists j :: h < j < i && OpensNew(g, spans, j) && forall k :: j < k < i ==> LooseNew(g, spans, k)
  }

  ghost predicate OpensLegacy(g: Grammar, spans: seq<Span>, j: int) {
    && PlainAt(g, spans, j) && !Blank(spans[j].line)
    && (g.legacyInsert(spans[j].line) || g.legacyReplace(spans[j].line).Some?)
  }

  /** A line that begins with none of the four signs. */
  ghost predicate LooseLegacy(g: Grammar, spans: seq<Span>, k: int) {
    && PlainAt(g, spans, k)
    && !(spans[k].line != "" && spans[k].line[0] in {'\U{00ab}', '\U{00bb}', '\U{2254}', '\U{00a7}'})
  }

  ghost predicate LegacyRun(g: Grammar, spans: seq<Span>, h: int, i: int) {
    exists j :: h < j < i && OpensLegacy(g, spans, j) && forall k :: j < k < i ==> LooseLegacy(g, spans, k)
  }

  /** Line `i` is payload of the section under `h`. */
  ghost predicate PayloadAt(g: Grammar, spans: seq<Span>, h: int, i: int)
    requires HeadAt(g, spans, h)
  {
    if FormatOf(g, spans[h]) == New then NewRun(g, spans, h, i) && LooseNew(g, spans, i)
    else LegacyRun(g, spans, h, i) && LooseLegacy(g, spans, i)
  }

  /** Line `i` is an operation of the section under `h`. */
  ghost predicate OpAt(g: Grammar, spans: seq<Span>, h: int, i: int)
    requires HeadAt(g, spans, h)
  {
    && PlainAt(g, spans, i) && !PayloadAt(g, spans, h, i) && !Blank(spans[i].line)
    && if FormatOf(g, spans[h]) == New then NewOp(g, spans[i].line)
       else g.legacyInsert(spans[i].line) || g.legacyReplace(spans[i].line).Some?
  }

  /** The line before line `i` is a legacy insert, which demands payload. */
  ghost predicate Lacks(g: Grammar, spans: seq<Span>, i: int) {
    exists h :: Under(g, spans, h, i - 1) && FormatOf(g, spans[h]) != New && OpAt(g, spans, h, i - 1)
                && g.legacyInsert(spans[i - 1].line)
  }

  /** Line `i` can stand where it does: it is blank before all content, a marker or a header, or belongs to a section
      as payload, operation or blank line. After a legacy insert it must be payload. */
  ghost predicate Fits(g: Grammar, spans: seq<Span>, i: int) {
    || Lead(spans, i)
    || ((MarkerAt(g, spans, i) || HeadAt(g, spans, i)) && !Lacks(g, spans, i))
    || (PlainAt(g, spans, i) && exists h :: Belongs(g, spans, h, i))
  }

  ghost predicate Belongs(g: Grammar, spans: seq<Span>, h: int, i: int)
    requires PlainAt(g, spans, i)
  {
    && Under(g, spans, h, i)
    && (PayloadAt(g, spans, h, i) || (!Lacks(g, spans, i) && (OpAt(g, spans, h, i) || Blank(spans[i].line))))
  }

  // ---- the runs, one line at a time ----

  lemma NewRunNext(g: Grammar, spans: seq<Span>, h: int, i: int)
    requires h < i
    ensures NewRun(g, spans, h, i + 1) <==> OpensNew(g, spans, i) || (NewRun(g, spans, h, i) && LooseNew(g, spans, i))
  {
    if NewRun(g, spans, h, i) && LooseNew(g, spans, i) {
      var j :| h < j < i && OpensNew(g, spans, j) && forall k :: j < k < i ==> LooseNew(g, spans, k);
      assert forall k :: j < k < i + 1 ==> LooseNew(g, spans, k);
    }
    if NewRun(g, spans, h, i + 1) && !OpensNew(g, spans, i) {
      var j :| h < j < i + 1 && OpensNew(g, spans, j) && forall k :: j < k < i + 1 ==> LooseNew(g, spans, k);
      assert j != i && LooseNew(g, spans, i);
    }
  }

  lemma LegacyRunNext(g: Grammar, spans: seq<Span>, h: int, i: int)
    requires h < i
    ensures LegacyRun(g, spans, h, i + 1) <==>
            OpensLegacy(g, spans, i) || (LegacyRun(g, spans, h, i) && LooseLegacy(g, spans, i))
  {
    if LegacyRun(g, spans, h, i) && LooseLegacy(g, spans, i) {
      var j :| h < j < i && OpensLegacy(g, spans, j) && forall k :: j < k < i ==> LooseLegacy(g, spans, k);
      assert forall k :: j < k < i + 1 ==> LooseLegacy(g, spans, k);
    }
    if LegacyRun(g, spans, h, i + 1) && !OpensLegacy(g, spans, i) {
      var j :| h < j < i + 1 && OpensLegacy(g, spans, j) && forall k :: j < k < i + 1 ==> LooseLegacy(g, spans, k);
      assert j != i && LooseLegacy(g, spans, i);
    }
  }

  lemma UnderIsOne(g: Grammar, spans: seq<Span>, h: int, k: int, i: int)
    requires Under(g, spans, h, i) && Under(g, spans, k, i)
    ensures h == k
  {
  }

  /** Lines after a line that is not plain open no run. */
  lemma NoRunAcross(g: Grammar, spans: seq<Span>, h: int, i: int)
    requires !PlainAt(g, spans, i)
    ensures !NewRun(g, spans, h, i + 1) || h >= i
    ensures !LegacyRun(g, spans, h, i + 1) || h >= i
  {
    if h < i {
      NewRunNext(g, spans, h, i);
      LegacyRunNext(g, spans, h, i);
    }
  }

  // ---- what a section counts ----

  function Add(s: Section, ops: int, payload: int, deleted: int): Section {
    Section(s.target, s.opCount + ops, s.payloadLines + payload, s.deletedLines + deleted)
  }

  /** An operation of the new format may carry its first payload line inline. */
  predicate InlinePayload(g: Grammar, line: string) {
    if g.newInsert(line).Some? then g.newInsert(line).value
    else g.newRange(line).Some? && g.newRange(line).value.replacing && g.newRange(line).value.inline
  }

  function Deletes(g: Grammar, format: Format, line: string): int {
    if format == New then
      if g.newInsert(line).None? && g.newRange(line).Some? then g.newRange(line).value.deleted else 0
    else if !g.legacyInsert(line) && g.legacyReplace(line).Some? then g.legacyReplace(line).value else 0
  }

  /** The section under `h`, with what the lines between it and line `n` add: an operation counts as one, with its
      inline payload and the lines it deletes; a payload line counts as one. */
  ghost function Tally(g: Grammar, spans: seq<Span>, h: int, n: int): Section
    requires HeadAt(g, spans, h)
    decreases n
  {
    if n <= h + 1 || n < 0 then Section(g.header(spans[h].line).value.target, 0, 0, 0)
    else
      var before, i := Tally(g, spans, h, n - 1), n - 1;
      if PayloadAt(g, spans, h, i) then Add(before, 0, 1, 0)
      else if OpAt(g, spans, h, i) then
        Add(before, 1, if FormatOf(g, spans[h]) == New && InlinePayload(g, spans[i].line) then 1 else 0,
            Deletes(g, FormatOf(g, spans[h]), spans[i].line))
      else before
  }

  /** The headers among the first `n` lines. */
  ghost function Heads(g: Grammar, spans: seq<Span>, n: nat): (r: seq<nat>)
    requires n <= |spans|
    ensures forall i :: 0 <= i < |r| ==> r[i] < n && HeadAt(g, spans, r[i])
  {
    if n == 0 then []
    else if HeadAt(g, spans, n - 1) then Heads(g, spans, n - 1) + [n - 1] else Heads(g, spans, n - 1)
  }

  /** Section `i` counts its lines up to the next header. */
  ghost predicate CountedAt(g: Grammar, spans: seq<Span>, heads: seq<nat>, n: nat, sections: seq<Section>, i: int) {
    && 0 <= i < |heads| && |heads| == |sections| && HeadAt(g, spans, heads[i])
    && sections[i] == Tally(g, spans, heads[i], if i + 1 < |heads| then heads[i + 1] else n)
  }

  ghost predicate CountedBy(g: Grammar, spans: seq<Span>, heads: seq<nat>, n: nat, sections: seq<Section>) {
    |sections| == |heads| && forall i :: 0 <= i < |heads| ==> CountedAt(g, spans, heads, n, sections, i)
  }

  ghost predicate Counted(g: Grammar, spans: seq<Span>, n: nat, sections: seq<Section>)
    requires n <= |spans|
  {
    CountedBy(g, spans, Heads(g, spans, n), n, sections)
  }

  lemma {:induction false} LastHead(g: Grammar, spans: seq<Span>, n: nat)
    requires n <= |spans|
    ensures var heads := Heads(g, spans, n);
      && (heads != [] ==> Under(g, spans, heads[|heads| - 1], n))
      && (heads == [] ==> forall h :: h < n ==> !HeadAt(g, spans, h))
  {
    if n > 0 { LastHead(g, spans, n - 1); }
  }

  // ---- the scan keeps up with it ----

  ghost predicate RunAt(g: Grammar, spans: seq<Span>, h: int, n: int)
    requires HeadAt(g, spans, h)
  {
    if FormatOf(g, spans[h]) == New then NewRun(g, spans, h, n) else LegacyRun(g, spans, h, n)
  }

  /** What the variables of the scan hold after `n` lines that fit. */
  ghost predicate Reads(g: Grammar, spans: seq<Span>, n: nat, s: Scan)
    requires n <= |spans|
  {
    && !s.stopped && s.lineNo == n && (s.seenContent <==> n > 0 && !Lead(spans, n - 1))
    && Counted(g, spans, n, s.sections)
    && s.needsPayload == Lacks(g, spans, n) && (s.needsPayload ==> !s.sawPayload)
    && (forall h :: Under(g, spans, h, n) ==>
          s.format == FormatOf(g, spans[h]) && s.payloadAllowed == RunAt(g, spans, h, n))
    && (s.sections == [] ==> !s.payloadAllowed)
    && s.parsedEnd == EndOf(spans, if Lacks(g, spans, n) then n - 1 else n)
  }

  lemma LeadGrows(spans: seq<Span>, n: nat)
    requires n < |spans|
    ensures Lead(spans, n) <==> (n == 0 || Lead(spans, n - 1)) && Blank(spans[n].line)
  {
  }

  lemma UnderNext(g: Grammar, spans: seq<Span>, h: int, n: nat, m: nat)
    requires n < |spans| && m == n + 1
    ensures Under(g, spans, h, m) <==> if HeadAt(g, spans, n) then h == n else Under(g, spans, h, n)
  {
  }

  /** The last section goes on, the others stay. */
  lemma TallyNext(g: Grammar, spans: seq<Span>, heads: seq<nat>, n: nat, sections: seq<Section>, after: seq<Section>,
                  m: nat)
    requires CountedBy(g, spans, heads, n, sections) && |after| == |sections|
    requires forall i :: 0 <= i < |after| - 1 ==> after[i] == sections[i]
    requires sections != [] ==> CountedAt(g, spans, heads, m, after, |after| - 1)
    ensures CountedBy(g, spans, heads, m, after)
  {
    forall i | 0 <= i < |heads| ensures CountedAt(g, spans, heads, m, after, i) {
      assert CountedAt(g, spans, heads, n, sections, i);
    }
  }

  lemma SameHeads(g: Grammar, spans: seq<Span>, n: nat, m: nat)
    requires n < |spans| && m == n + 1
    ensures Heads(g, spans, m) == Heads(g, spans, n) + if HeadAt(g, spans, n) then [n] else []
  {
    assert Heads(g, spans, n) + [] == Heads(g, spans, n);
  }

  lemma CountedSame(g: Grammar, spans: seq<Span>, n: nat, sections: seq<Section>, m: nat)
    requires n < |spans| && !HeadAt(g, spans, n) && Counted(g, spans, n, sections) && m == n + 1
    requires forall h :: Under(g, spans, h, n) ==> !PayloadAt(g, spans, h, n) && !OpAt(g, spans, h, n)
    ensures Counted(g, spans, m, sections)
  {
    LastHead(g, spans, n);
    SameHeads(g, spans, n, m);
    var heads := Heads(g, spans, n);
    assert heads + [] == heads;
    if sections != [] {
      var last := |heads| - 1;
      assert CountedAt(g, spans, heads, n, sections, last);
      assert Tally(g, spans, heads[last], m) == Tally(g, spans, heads[last], n);
    }
    TallyNext(g, spans, heads, n, sections, sections, m);
  }

  /** A line that is not plain lacks nothing and runs nowhere. */
  lemma AfterOther(g: Grammar, spans: seq<Span>, n: nat, m: nat)
    requires n < |spans| && !PlainAt(g, spans, n) && m == n + 1
    ensures !Lacks(g, spans, m)
    ensures forall h :: HeadAt(g, spans, h) ==> !PayloadAt(g, spans, h, n) && !OpAt(g, spans, h, n)
    ensures forall h :: Under(g, spans, h, m) ==> !RunAt(g, spans, h, m)
  {
    forall h | Under(g, spans, h, m) ensures !RunAt(g, spans, h, m) { NoRunAcross(g, spans, h, n); }
  }

  /** If the line fits, the scan keeps up with it; if not, it stops and changes nothing else. */
  ghost predicate Keeps(g: Grammar, spans: seq<Span>, n: nat, s: Scan, m: nat)
    requires n < |spans| && m == n + 1
  {
    var t := Step(g, s, spans[n]);
    if Fits(g, spans, n) then Reads(g, spans, m, t) else t == s.(stopped := true, lineNo := m, seenContent := true)
  }

  /** What is to be shown of the state behind a line that is not plain. */
  lemma OtherReads(g: Grammar, spans: seq<Span>, n: nat, s: Scan, t: Scan, m: nat)
    requires n < |spans| && Reads(g, spans, n, s) && m == n + 1 && !PlainAt(g, spans, n)
    requires !t.stopped && t.lineNo == m && t.seenContent == !Lead(spans, n) && t.parsedEnd == spans[n].end
    requires Counted(g, spans, m, t.sections) && !t.needsPayload && !t.payloadAllowed
    requires if HeadAt(g, spans, n) then t.format == FormatOf(g, spans[n]) else t.format == s.format
    ensures Reads(g, spans, m, t)
  {
    AfterOther(g, spans, n, m);
    forall h | Under(g, spans, h, m)
      ensures t.format == FormatOf(g, spans[h]) && t.payloadAllowed == RunAt(g, spans, h, m)
    {
      UnderNext(g, spans, h, n, m);
    }
  }

  lemma LeadKeeps(g: Grammar, spans: seq<Span>, n: nat, s: Scan, m: nat)
    requires n < |spans| && Reads(g, spans, n, s) && Lead(spans, n) && m == n + 1
    ensures Keeps(g, spans, n, s, m)
  {
    LeadGrows(spans, n);
    AfterOther(g, spans, n, m);
    CountedSame(g, spans, n, s.sections, m);
    NothingBefore(g, spans, n, s);
    OtherReads(g, spans, n, s, Step(g, s, spans[n]), m);
  }

  /** Before all content nothing is open. */
  lemma NothingBefore(g: Grammar, spans: seq<Span>, n: nat, s: Scan)
    requires n < |spans| && Reads(g, spans, n, s) && Lead(spans, n)
    ensures !s.needsPayload && !s.payloadAllowed && !s.seenContent
  {
    LastHead(g, spans, n);
    LeadGrows(spans, n);
    assert !Lacks(g, spans, n);
  }

  /** What the scan makes of a marker. */
  lemma MarkerLine(g: Grammar, s: Scan, span: Span)
    requires !s.stopped && (s.seenContent || !Blank(span.line)) && (g.beginPatch(span.line) || g.endPatch(span.line))
    requires s.needsPayload ==> !s.sawPayload
    ensures var t := s.(lineNo := s.lineNo + 1, seenContent := true);
      Step(g, s, span) ==
        if s.needsPayload then t.(stopped := true) else t.(parsedEnd := span.end, payloadAllowed := false)
  {
  }

  /** And of a header. */
  lemma HeadLine(g: Grammar, s: Scan, span: Span)
    requires !s.stopped && (s.seenContent || !Blank(span.line)) && !g.beginPatch(span.line) && !g.endPatch(span.line)
    requires g.header(span.line).Some? && (s.needsPayload ==> !s.sawPayload)
    ensures var t, header := s.(lineNo := s.lineNo + 1, seenContent := true), g.header(span.line).value;
      Step(g, s, span) ==
        if s.needsPayload then t.(stopped := true)
        else t.(sections := s.sections + [Section(header.target, 0, 0, 0)], format := header.format,
                parsedEnd := span.end, needsPayload := false, payloadAllowed := false, sawPayload := false)
  {
  }

  lemma MarkerKeeps(g: Grammar, spans: seq<Span>, n: nat, s: Scan, m: nat)
    requires n < |spans| && Reads(g, spans, n, s) && MarkerAt(g, spans, n) && m == n + 1
    ensures Keeps(g, spans, n, s, m)
  {
    LeadGrows(spans, n);
    MarkerLine(g, s, spans[n]);
    assert Fits(g, spans, n) <==> !Lacks(g, spans, n);
    if !Lacks(g, spans, n) {
      AfterOther(g, spans, n, m);
      CountedSame(g, spans, n, s.sections, m);
      OtherReads(g, spans, n, s, Step(g, s, spans[n]), m);
    }
  }

  lemma HeadKeeps(g: Grammar, spans: seq<Span>, n: nat, s: Scan, m: nat)
    requires n < |spans| && Reads(g, spans, n, s) && HeadAt(g, spans, n) && m == n + 1
    ensures Keeps(g, spans, n, s, m)
  {
    LeadGrows(spans, n);
    HeadLine(g, s, spans[n]);
    assert Fits(g, spans, n) <==> !Lacks(g, spans, n);
    if !Lacks(g, spans, n) {
      HeadCounts(g, spans, n, s.sections, m);
      OtherReads(g, spans, n, s, Step(g, s, spans[n]), m);
    }
  }

  lemma HeadCounts(g: Grammar, spans: seq<Span>, n: nat, sections: seq<Section>, m: nat)
    requires n < |spans| && Counted(g, spans, n, sections) && HeadAt(g, spans, n) && m == n + 1
    ensures Counted(g, spans, m, sections + [Section(g.header(spans[n].line).value.target, 0, 0, 0)])
  {
    var heads, after := Heads(g, spans, n), sections + [Section(g.header(spans[n].line).value.target, 0, 0, 0)];
    SameHeads(g, spans, n, m);
    assert Tally(g, spans, n, m) == after[|heads|];
    forall i | 0 <= i < |heads| + 1 ensures CountedAt(g, spans, heads + [n], m, after, i) {
      if i < |heads| { assert CountedAt(g, spans, heads, n, sections, i); }
    }
  }

  // ---- a plain line, as the scan sees it ----

  predicate PlainLine(g: Grammar, s: Scan, line: string) {
    && !s.stopped && (s.seenContent || !Blank(line)) && s.sections != []
    && !g.beginPatch(line) && !g.endPatch(line) && g.header(line).None?
  }

  /** The scan goes on behind the line, with what it adds to the last section. */
  function Onward(s: Scan, span: Span, ops: int, payload: int, deleted: int, allowed: bool): Scan
    requires s.sections != []
  {
    s.(sections := Bump(s.sections, ops, payload, deleted), parsedEnd := span.end, payloadAllowed := allowed,
       lineNo := s.lineNo + 1, seenContent := true)
  }

  predicate LooseNewLine(g: Grammar, line: string) {
    !NewOp(g, line) && !(line != "" && line[0] == '\U{00b6}')
  }

  predicate LooseLegacyLine(line: string) {
    !(line != "" && line[0] in {'\U{00ab}', '\U{00bb}', '\U{2254}', '\U{00a7}'})
  }

  predicate OpensNewLine(g: Grammar, line: string) {
    g.newInsert(line).Some? || (g.newRange(line).Some? && g.newRange(line).value.replacing)
  }

  lemma BumpNothing(sections: seq<Section>)
    requires sections != []
    ensures Bump(sections, 0, 0, 0) == sections
  {
  }

  lemma NewLine(g: Grammar, s: Scan, span: Span)
    requires PlainLine(g, s, span.line) && s.format == New
    ensures var line, t := span.line, Step(g, s, span);
      if s.payloadAllowed && LooseNewLine(g, line) then t == Onward(s, span, 0, 1, 0, true)
      else if Blank(line) then t == Onward(s, span, 0, 0, 0, false)
      else if NewOp(g, line) then
        t == Onward(s, span, 1, if InlinePayload(g, line) then 1 else 0, Deletes(g, New, line), OpensNewLine(g, line))
      else t == s.(stopped := true, lineNo := s.lineNo + 1, seenContent := true)
  {
    BumpNothing(s.sections);
  }

  lemma LegacyLine(g: Grammar, s: Scan, span: Span)
    requires PlainLine(g, s, span.line) && s.format != New && (s.needsPayload ==> !s.sawPayload && s.payloadAllowed)
    ensures var line, t := span.line, Step(g, s, span);
      if s.payloadAllowed && LooseLegacyLine(line) then
        t == Onward(s, span, 0, 1, 0, true).(needsPayload := false, sawPayload := true)
      else if s.needsPayload then t == s.(stopped := true, lineNo := s.lineNo + 1, seenContent := true)
      else if Blank(line) then t == Onward(s, span, 0, 0, 0, false).(needsPayload := false, sawPayload := false)
      else if g.legacyInsert(line) then
        t == Onward(s, span, 1, 0, 0, true).(parsedEnd := s.parsedEnd, needsPayload := true, sawPayload := false)
      else if g.legacyReplace(line).Some? then
        t == Onward(s, span, 1, 0, Deletes(g, s.format, line), true).(needsPayload := false, sawPayload := false)
      else t == s.(stopped := true, lineNo := s.lineNo + 1, seenContent := true)
  {
    BumpNothing(s.sections);
  }

  // ---- a plain line, as the lines before it see it ----

  /** The scan stands before a plain line of the section under `h`. */
  ghost predicate Before(g: Grammar, spans: seq<Span>, n: nat, s: Scan, h: int) {
    n < |spans| && Reads(g, spans, n, s) && PlainAt(g, spans, n) && Under(g, spans, h, n)
  }

  lemma BeforePlain(g: Grammar, spans: seq<Span>, n: nat, s: Scan, h: int)
    requires Before(g, spans, n, s, h)
    ensures PlainLine(g, s, spans[n].line) && s.format == FormatOf(g, spans[h])
    ensures s.payloadAllowed == RunAt(g, spans, h, n) && s.needsPayload == Lacks(g, spans, n)
    ensures s.format == New ==> !s.needsPayload
    ensures s.needsPayload ==> s.payloadAllowed && !s.sawPayload
  {
    LastHead(g, spans, n);
    LeadGrows(spans, n);
    if s.needsPayload { LacksRuns(g, spans, n, h); }
  }

  /** After a legacy insert payload may follow. */
  lemma LacksRuns(g: Grammar, spans: seq<Span>, n: nat, h: int)
    requires n < |spans| && Under(g, spans, h, n) && Lacks(g, spans, n)
    ensures FormatOf(g, spans[h]) != New && LegacyRun(g, spans, h, n)
  {
    var i := n - 1;
    var k :| Under(g, spans, k, i) && FormatOf(g, spans[k]) != New && OpAt(g, spans, k, i)
             && g.legacyInsert(spans[i].line);
    UnderNext(g, spans, k, i, n);
    UnderIsOne(g, spans, h, k, n);
    LegacyRunNext(g, spans, h, i);
  }

  lemma PlainCounts(g: Grammar, spans: seq<Span>, n: nat, sections: seq<Section>, h: int, ops: int, payload: int,
                    deleted: int, m: nat)
    requires n < |spans| && Under(g, spans, h, n) && PlainAt(g, spans, n) && Counted(g, spans, n, sections)
    requires m == n + 1
    requires sections != [] && Tally(g, spans, h, m) == Add(Tally(g, spans, h, n), ops, payload, deleted)
    ensures Counted(g, spans, m, Bump(sections, ops, payload, deleted))
  {
    LastHead(g, spans, n);
    SameHeads(g, spans, n, m);
    var heads, last := Heads(g, spans, n), |sections| - 1;
    assert heads + [] == heads;
    UnderIsOne(g, spans, heads[last], h, n);
    assert CountedAt(g, spans, heads, n, sections, last);
    TallyNext(g, spans, heads, n, sections, Bump(sections, ops, payload, deleted), m);
  }

  /** What is still to be shown of the state behind a plain line. */
  lemma PlainReads(g: Grammar, spans: seq<Span>, n: nat, s: Scan, h: int, t: Scan, m: nat)
    requires Before(g, spans, n, s, h) && m == n + 1
    requires !t.stopped && t.lineNo == m && t.seenContent && t.format == s.format
    requires t.sections != [] && Counted(g, spans, m, t.sections)
    requires t.payloadAllowed == RunAt(g, spans, h, m)
    requires t.needsPayload == (FormatOf(g, spans[h]) != New && OpAt(g, spans, h, n) && g.legacyInsert(spans[n].line))
    requires t.needsPayload ==> !t.sawPayload
    requires t.parsedEnd == if t.needsPayload then s.parsedEnd else spans[n].end
    requires t.needsPayload ==> !s.needsPayload
    ensures Reads(g, spans, m, t)
  {
    LeadGrows(spans, n);
    BeforePlain(g, spans, n, s, h);
    forall k ensures Under(g, spans, k, m) <==> k == h {
      UnderNext(g, spans, k, n, m);
      if Under(g, spans, k, n) { UnderIsOne(g, spans, k, h, n); }
    }
    forall k ensures Under(g, spans, k, n) <==> k == h { if Under(g, spans, k, n) { UnderIsOne(g, spans, k, h, n); } }
    assert Lacks(g, spans, m) <==> t.needsPayload;
  }

  lemma NewStep(g: Grammar, spans: seq<Span>, n: nat, s: Scan, h: int, m: nat)
    requires Before(g, spans, n, s, h) && FormatOf(g, spans[h]) == New && m == n + 1
    ensures var t := Step(g, s, spans[n]);
      if PayloadAt(g, spans, h, n) || OpAt(g, spans, h, n) || Blank(spans[n].line) then Reads(g, spans, m, t)
      else t == s.(stopped := true, lineNo := m, seenContent := true)
  {
    BeforePlain(g, spans, n, s, h);
    NewLine(g, s, spans[n]);
    NewRunNext(g, spans, h, n);
    var t, line := Step(g, s, spans[n]), spans[n].line;
    if PayloadAt(g, spans, h, n) {
      NewReads(g, spans, n, s, h, t, 0, 1, 0, m);
    } else if Blank(line) {
      NewReads(g, spans, n, s, h, t, 0, 0, 0, m);
    } else if OpAt(g, spans, h, n) {
      NewReads(g, spans, n, s, h, t, 1, if InlinePayload(g, line) then 1 else 0, Deletes(g, New, line), m);
    }
  }

  lemma NewReads(g: Grammar, spans: seq<Span>, n: nat, s: Scan, h: int, t: Scan, ops: int, payload: int, deleted: int,
                 m: nat)
    requires Before(g, spans, n, s, h) && FormatOf(g, spans[h]) == New && m == n + 1 && s.sections != []
    requires Tally(g, spans, h, m) == Add(Tally(g, spans, h, n), ops, payload, deleted)
    requires t == Onward(s, spans[n], ops, payload, deleted, NewRun(g, spans, h, m))
    ensures Reads(g, spans, m, t)
  {
    BeforePlain(g, spans, n, s, h);
    PlainCounts(g, spans, n, s.sections, h, ops, payload, deleted, m);
    PlainReads(g, spans, n, s, h, t, m);
  }

  lemma LegacyStep(g: Grammar, spans: seq<Span>, n: nat, s: Scan, h: int, m: nat)
    requires Before(g, spans, n, s, h) && FormatOf(g, spans[h]) != New && m == n + 1
    ensures var t := Step(g, s, spans[n]);
      if Belongs(g, spans, h, n) then Reads(g, spans, m, t)
      else t == s.(stopped := true, lineNo := m, seenContent := true)
  {
    BeforePlain(g, spans, n, s, h);
    LegacyLine(g, s, spans[n]);
    if PayloadAt(g, spans, h, n) {
      LegacyPayloadStep(g, spans, n, s, h, m);
    } else if Lacks(g, spans, n) {
    } else if Blank(spans[n].line) {
      LegacyBlankStep(g, spans, n, s, h, m);
    } else if OpAt(g, spans, h, n) {
      LegacyOpStep(g, spans, n, s, h, m);
    }
  }

  lemma LegacyPayloadStep(g: Grammar, spans: seq<Span>, n: nat, s: Scan, h: int, m: nat)
    requires Before(g, spans, n, s, h) && FormatOf(g, spans[h]) != New && m == n + 1 && PayloadAt(g, spans, h, n)
    ensures Reads(g, spans, m, Step(g, s, spans[n]))
  {
    BeforePlain(g, spans, n, s, h);
    LegacyLine(g, s, spans[n]);
    LegacyRunNext(g, spans, h, n);
    PlainCounts(g, spans, n, s.sections, h, 0, 1, 0, m);
    PlainReads(g, spans, n, s, h, Step(g, s, spans[n]), m);
  }

  lemma LegacyBlankStep(g: Grammar, spans: seq<Span>, n: nat, s: Scan, h: int, m: nat)
    requires Before(g, spans, n, s, h) && FormatOf(g, spans[h]) != New && m == n + 1 && !PayloadAt(g, spans, h, n)
    requires !Lacks(g, spans, n) && Blank(spans[n].line)
    ensures Reads(g, spans, m, Step(g, s, spans[n]))
  {
    BeforePlain(g, spans, n, s, h);
    LegacyLine(g, s, spans[n]);
    LegacyRunNext(g, spans, h, n);
    PlainCounts(g, spans, n, s.sections, h, 0, 0, 0, m);
    PlainReads(g, spans, n, s, h, Step(g, s, spans[n]), m);
  }

  lemma LegacyOpStep(g: Grammar, spans: seq<Span>, n: nat, s: Scan, h: int, m: nat)
    requires Before(g, spans, n, s, h) && FormatOf(g, spans[h]) != New && m == n + 1 && !PayloadAt(g, spans, h, n)
    requires !Lacks(g, spans, n) && !Blank(spans[n].line) && OpAt(g, spans, h, n)
    ensures Reads(g, spans, m, Step(g, s, spans[n]))
  {
    BeforePlain(g, spans, n, s, h);
    LegacyLine(g, s, spans[n]);
    LegacyRunNext(g, spans, h, n);
    PlainCounts(g, spans, n, s.sections, h, 1, 0, Deletes(g, s.format, spans[n].line), m);
    PlainReads(g, spans, n, s, h, Step(g, s, spans[n]), m);
  }

  /** Content before any header ends the scan. */
  lemma NoSectionKeeps(g: Grammar, spans: seq<Span>, n: nat, s: Scan, m: nat)
    requires n < |spans| && Reads(g, spans, n, s) && PlainAt(g, spans, n) && s.sections == [] && m == n + 1
    ensures Keeps(g, spans, n, s, m)
  {
    LeadGrows(spans, n);
    LastHead(g, spans, n);
  }

  lemma BelongsToLast(g: Grammar, spans: seq<Span>, n: nat, h: int)
    requires PlainAt(g, spans, n) && Under(g, spans, h, n)
    ensures Fits(g, spans, n) <==> Belongs(g, spans, h, n)
  {
    if Fits(g, spans, n) {
      var k :| Belongs(g, spans, k, n);
      UnderIsOne(g, spans, k, h, n);
    }
  }

  lemma PlainKeeps(g: Grammar, spans: seq<Span>, n: nat, s: Scan, h: int, m: nat)
    requires Before(g, spans, n, s, h) && m == n + 1
    ensures Keeps(g, spans, n, s, m)
  {
    BelongsToLast(g, spans, n, h);
    BeforePlain(g, spans, n, s, h);
    if FormatOf(g, spans[h]) == New { NewStep(g, spans, n, s, h, m); } else { LegacyStep(g, spans, n, s, h, m); }
  }

  lemma OneMore(g: Grammar, spans: seq<Span>, n: nat, s: Scan, m: nat)
    requires n < |spans| && Reads(g, spans, n, s) && m == n + 1
    ensures Keeps(g, spans, n, s, m)
  {
    if Lead(spans, n) {
      LeadKeeps(g, spans, n, s, m);
    } else if MarkerAt(g, spans, n) {
      MarkerKeeps(g, spans, n, s, m);
    } else if HeadAt(g, spans, n) {
      HeadKeeps(g, spans, n, s, m);
    } else {
      assert PlainAt(g, spans, n);
      AnyPlainKeeps(g, spans, n, s, m);
    }
  }

  lemma AnyPlainKeeps(g: Grammar, spans: seq<Span>, n: nat, s: Scan, m: nat)
    requires n < |spans| && Reads(g, spans, n, s) && PlainAt(g, spans, n) && m == n + 1
    ensures Keeps(g, spans, n, s, m)
  {
    if s.sections == [] {
      NoSectionKeeps(g, spans, n, s, m);
    } else {
      var h := LastBefore(g, spans, n, s);
      PlainKeeps(g, spans, n, s, h, m);
    }
  }

  lemma LastBefore(g: Grammar, spans: seq<Span>, n: nat, s: Scan) returns (h: nat)
    requires n < |spans| && Reads(g, spans, n, s) && PlainAt(g, spans, n) && s.sections != []
    ensures Before(g, spans, n, s, h)
  {
    h := LastUnder(g, spans, n, s.sections);
  }

  lemma LastUnder(g: Grammar, spans: seq<Span>, n: nat, sections: seq<Section>) returns (h: nat)
    requires n < |spans| && Counted(g, spans, n, sections) && sections != []
    ensures Under(g, spans, h, n)
  {
    LastHead(g, spans, n);
    var heads := Heads(g, spans, n);
    h := heads[|heads| - 1];
  }

  // ---- the whole text ----

  /** The first `n` lines fit, and the next one, if there is one, does not. */
  ghost predicate Fitting(g: Grammar, spans: seq<Span>, n: nat) {
    && n <= |spans| && (forall i :: 0 <= i < n ==> Fits(g, spans, i))
    && (n < |spans| ==> !Fits(g, spans, n))
  }

  lemma {:induction false} ScanReads(g: Grammar, spans: seq<Span>, n: nat)
    requires n <= |spans| && forall i :: 0 <= i < n ==> Fits(g, spans, i)
    ensures Reads(g, spans, n, ScanLines(g, spans[..n]))
  {
    if n > 0 {
      ScanReads(g, spans, n - 1);
      OneMore(g, spans, n - 1, ScanLines(g, spans[..n - 1]), n);
      ScanSnoc(g, spans, n);
    } else {
      NothingRead(g, spans);
    }
  }

  lemma NothingRead(g: Grammar, spans: seq<Span>)
    ensures Reads(g, spans, 0, ScanLines(g, spans[..0]))
  {
    assert spans[..0] == [];
    assert forall h :: Under(g, spans, h, 0) ==> false;
  }

  lemma ScanSnoc(g: Grammar, spans: seq<Span>, n: nat)
    requires 0 < n <= |spans|
    ensures ScanLines(g, spans[..n]) == Step(g, ScanLines(g, spans[..n - 1]), spans[n - 1])
  {
    assert spans[..n][..n - 1] == spans[..n - 1];
  }

  lemma FitsOnce(g: Grammar, spans: seq<Span>) returns (n: nat)
    ensures Fitting(g, spans, n)
  {
    n := 0;
    while n < |spans| && Fits(g, spans, n)
      invariant n <= |spans| && forall i :: 0 <= i < n ==> Fits(g, spans, i)
    {
      n := n + 1;
    }
  }

  /** What the parser returns: the prefix ends before the first line that does not fit, without a trailing insert that
      lacks its payload; it has a section for every header before that line, and these count its lines. */
  ghost predicate Returned(g: Grammar, text: string, n: nat, b: Boundary)
    requires n <= |Spans(text)|
  {
    var spans := Spans(text);
    var heads, lacks := Heads(g, spans, n), Lacks(g, spans, n);
    var end := EndOf(spans, if lacks then n - 1 else n);
    if heads == [] && StartsWithDashes(text) then b == LegacyDiff
    else
      && b.Boundary? && b.parsedEnd == end && Counted(g, spans, n, b.sections)
      && b.ok == (end > 0 && heads != [])
      && b.reason == (if lacks then InsertMissingPayload
                      else if end > 0 && heads != [] then Ok else NoCompleteEditPrefix)
      && b.lineNo == if n < |spans| then n + 1 else n
  }

  lemma ParsedPrefix(g: Grammar, text: string, n: nat)
    requires Fitting(g, Spans(text), n)
    ensures Returned(g, text, n, Parse(g, text))
  {
    EndState(g, Spans(text), n);
    FinishReturns(g, text, n, ScanLines(g, Spans(text)));
  }

  /** How the scan ends. */
  ghost predicate Ended(g: Grammar, spans: seq<Span>, n: nat, s: Scan)
    requires n <= |spans|
  {
    && Counted(g, spans, n, s.sections) && s.Lacking() == Lacks(g, spans, n)
    && s.parsedEnd == EndOf(spans, if Lacks(g, spans, n) then n - 1 else n)
    && s.lineNo == if n < |spans| then n + 1 else n
  }

  lemma EndState(g: Grammar, spans: seq<Span>, n: nat)
    requires Fitting(g, spans, n)
    ensures Ended(g, spans, n, ScanLines(g, spans))
  {
    ScanReads(g, spans, n);
    ReadsEnds(g, spans, n, ScanLines(g, spans[..n]));
    if n < |spans| { Stopped(g, spans, n); } else { assert spans[..n] == spans; }
  }

  lemma ReadsEnds(g: Grammar, spans: seq<Span>, n: nat, s: Scan)
    requires n <= |spans| && Reads(g, spans, n, s)
    ensures n == |spans| ==> Ended(g, spans, n, s)
    ensures n < |spans| ==> Ended(g, spans, n, s.(stopped := true, lineNo := n + 1, seenContent := true))
  {
  }

  lemma Stopped(g: Grammar, spans: seq<Span>, n: nat)
    requires n < |spans| && Reads(g, spans, n, ScanLines(g, spans[..n])) && !Fits(g, spans, n)
    ensures ScanLines(g, spans)
         == ScanLines(g, spans[..n]).(stopped := true, lineNo := n + 1, seenContent := true)
  {
    OneMore(g, spans, n, ScanLines(g, spans[..n]), n + 1);
    ScanSnoc(g, spans, n + 1);
    StoppedStays(g, spans, n + 1);
  }

  lemma FinishReturns(g: Grammar, text: string, n: nat, s: Scan)
    requires n <= |Spans(text)| && Ended(g, Spans(text), n, s)
    ensures Returned(g, text, n, Finish(s, text))
  {
    var heads := Heads(g, Spans(text), n);
    assert |s.sections| == |heads|;
  }

  /** There is one such line, and the parser returns what it determines. */
  lemma PrefixIsExact(g: Grammar, text: string)
    ensures exists n :: Fitting(g, Spans(text), n) && Returned(g, text, n, Parse(g, text))
  {
    var n := FitsOnce(g, Spans(text));
    ParsedPrefix(g, text, n);
  }

  lemma FittingIsOne(g: Grammar, spans: seq<Span>, n: nat, m: nat)
    requires Fitting(g, spans, n) && Fitting(g, spans, m)
    ensures n == m
  {
  }
}
