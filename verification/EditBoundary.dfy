/** The longest prefix of an edit input that is a complete run of edit sections. */
module EditBoundary {
  import opened Basics
  import opened PythonText

  // ---- lines of a text ----

  /** Where the line that starts at `i` ends, its terminator included; CR LF is one terminator. */
  function NextEnd(text: string, i: nat): (e: nat)
    requires i < |text|
    ensures i < e <= |text|
    decreases |text| - i
  {
    if IsTerminator(text[i]) then
      if text[i] == '\r' && i + 1 < |text| && text[i + 1] == '\n' then i + 2 else i + 1
    else if i + 1 == |text| then i + 1 else NextEnd(text, i + 1)
  }

  /** A line without its line break, and where it ends in the text. */
  datatype Span = Span(line: string, end: nat)

  function SpanAt(text: string, i: nat): Span
    requires i < |text|
  {
    Span(RStrip(text[i..NextEnd(text, i)]), NextEnd(text, i))
  }

  function SpansFrom(text: string, i: nat): seq<Span>
    requires i <= |text|
    decreases |text| - i
  {
    if i == |text| then [] else [SpanAt(text, i)] + SpansFrom(text, NextEnd(text, i))
  }

  function Spans(text: string): seq<Span> { SpansFrom(text, 0) }

  lemma Shift(out: seq<Span>, next: Span, rest: seq<Span>)
    ensures out + ([next] + rest) == (out + [next]) + rest
  {
  }

  method LineSpans(text: string) returns (out: seq<Span>)
    ensures out == Spans(text)
  {
    out := [];
    var pos := 0;
    while pos < |text|
      invariant pos <= |text| && Spans(text) == out + SpansFrom(text, pos)
    {
      var start := pos;
      pos := NextEnd(text, start);
      Shift(out, SpanAt(text, start), SpansFrom(text, pos));
      out := out + [Span(RStrip(text[start..pos]), pos)];
    }
  }

  /** Position `k` ends a line of `text`. */
  predicate LineEnd(text: string, k: nat) {
    && 0 < k <= |text|
    && (k == |text| || (IsTerminator(text[k - 1]) && !(text[k - 1] == '\r' && text[k] == '\n')))
  }

  lemma {:induction false} NextEndIsNext(text: string, i: nat)
    requires i < |text|
    ensures LineEnd(text, NextEnd(text, i)) && forall k :: i < k < NextEnd(text, i) ==> !LineEnd(text, k)
    decreases |text| - i
  {
    if !IsTerminator(text[i]) && i + 1 < |text| { NextEndIsNext(text, i + 1); }
  }

  /** Cutting at a line end changes no line before it. */
  lemma {:induction false} NextEndOfPrefix(text: string, k: nat, i: nat, head: string)
    requires LineEnd(text, k) && i < k && head == text[..k]
    ensures NextEnd(text, i) <= k && NextEnd(head, i) == NextEnd(text, i)
    decreases k - i
  {
    if !IsTerminator(text[i]) && i + 1 < k { NextEndOfPrefix(text, k, i + 1, head); }
  }

  lemma SpanOfPrefix(text: string, k: nat, i: nat, head: string)
    requires LineEnd(text, k) && i < k && head == text[..k]
    ensures NextEnd(text, i) <= k && NextEnd(head, i) == NextEnd(text, i) && SpanAt(head, i) == SpanAt(text, i)
  {
    NextEndOfPrefix(text, k, i, head);
    var e := NextEnd(text, i);
    assert head[i..e] == text[i..e];
  }

  lemma ShiftFront(next: Span, a: seq<Span>, b: seq<Span>)
    ensures [next] + (a + b) == ([next] + a) + b
  {
  }

  /** Cutting at a line end cuts the list of lines. */
  lemma {:induction false} SpansSplit(text: string, k: nat, i: nat, head: string)
    requires (k == 0 || LineEnd(text, k)) && i <= k <= |text| && head == text[..k]
    ensures SpansFrom(text, i) == SpansFrom(head, i) + SpansFrom(text, k)
    decreases k - i
  {
    if i < k {
      SpanOfPrefix(text, k, i, head);
      SpansSplit(text, k, NextEnd(text, i), head);
      ShiftFront(SpanAt(text, i), SpansFrom(head, NextEnd(text, i)), SpansFrom(text, k));
    }
  }

  /** Ends ascend from `pos`. */
  predicate Growing(spans: seq<Span>, pos: nat) {
    && (forall i :: 0 <= i < |spans| ==> spans[i].end > pos)
    && forall i, j :: 0 <= i < j < |spans| ==> spans[i].end < spans[j].end
  }

  lemma GrowingCons(next: Span, rest: seq<Span>, pos: nat)
    requires next.end > pos && Growing(rest, next.end)
    ensures Growing([next] + rest, pos)
  {
    var all := [next] + rest;
    forall i, j | 0 <= i < j < |all| ensures all[i].end < all[j].end {
      assert all[j] == rest[j - 1];
      if i > 0 { assert all[i] == rest[i - 1]; }
    }
  }

  predicate EndsWith(spans: seq<Span>, e: nat) { spans != [] && spans[|spans| - 1].end == e }

  lemma {:induction false} SpansGrow(text: string, i: nat)
    requires i <= |text|
    ensures Growing(SpansFrom(text, i), i) && (i < |text| ==> EndsWith(SpansFrom(text, i), |text|))
    decreases |text| - i
  {
    if i < |text| {
      SpansGrow(text, NextEnd(text, i));
      GrowingCons(SpanAt(text, i), SpansFrom(text, NextEnd(text, i)), i);
    }
  }

  predicate EndsAt(spans: seq<Span>, e: int) {
    exists i :: 0 <= i < |spans| && spans[i].end == e
  }

  lemma EndsAtCons(h: Span, rest: seq<Span>, e: int)
    ensures EndsAt([h] + rest, e) <==> h.end == e || EndsAt(rest, e)
  {
    var all := [h] + rest;
    assert all[0] == h;
    if EndsAt(rest, e) {
      var i :| 0 <= i < |rest| && rest[i].end == e;
      assert all[i + 1].end == e;
    }
    if EndsAt(all, e) && h.end != e {
      var i :| 0 <= i < |all| && all[i].end == e;
      assert rest[i - 1].end == e;
    }
  }

  lemma NoEarlierEnd(spans: seq<Span>, pos: nat, e: int)
    requires Growing(spans, pos) && e <= pos
    ensures !EndsAt(spans, e)
  {
  }

  /** Lines end exactly at the line ends. */
  lemma {:induction false} SpansEnd(text: string, i: nat, k: nat)
    requires i < k <= |text|
    ensures LineEnd(text, k) <==> EndsAt(SpansFrom(text, i), k)
    decreases |text| - i
  {
    var e := NextEnd(text, i);
    NextEndIsNext(text, i);
    EndsAtCons(SpanAt(text, i), SpansFrom(text, e), k);
    if k > e {
      SpansEnd(text, e, k);
    } else {
      SpansGrow(text, e);
      NoEarlierEnd(SpansFrom(text, e), e, k);
    }
  }

  // ---- what a line can be ----

  datatype Format = New | LegacyHl | Codex

  datatype Header = Header(format: Format, target: string)

  /** `N:` replaces and may take payload; `N!` deletes. */
  datatype Range = Range(replacing: bool, inline: bool, deleted: int)

  /** The line patterns: patch markers, section headers, and the operations of either format. */
  datatype Grammar = Grammar(
    beginPatch: string -> bool,
    endPatch: string -> bool,
    header: string -> Option<Header>,
    newInsert: string -> Option<bool>,
    newRange: string -> Option<Range>,
    legacyInsert: string -> bool,
    legacyReplace: string -> Option<int>)

  predicate NewBlocker(line: string) { line != "" && line[0] == '\U{00b6}' }

  predicate LegacyBlocker(line: string) {
    line != "" && (line[0] == '\U{00ab}' || line[0] == '\U{00bb}' || line[0] == '\U{2254}' || line[0] == '\U{00a7}')
  }

  // ---- the scan, as a fold over lines ----

  datatype Section = Section(target: string, opCount: int, payloadLines: int, deletedLines: int)

  datatype Scan = Scan(sections: seq<Section>, format: Format, parsedEnd: nat, lineNo: nat,
                       needsPayload: bool, payloadAllowed: bool, sawPayload: bool, seenContent: bool, stopped: bool)
  {
    predicate Lacking() { needsPayload && !sawPayload }
  }

  function Begin(): Scan { Scan([], New, 0, 0, false, false, false, false, false) }

  function Bump(sections: seq<Section>, ops: int, payload: int, deleted: int): seq<Section>
    requires sections != []
  {
    var last := sections[|sections| - 1];
    sections[..|sections| - 1]
      + [Section(last.target, last.opCount + ops, last.payloadLines + payload, last.deletedLines + deleted)]
  }

  function OnMarker(s: Scan, end: nat): Scan {
    if s.Lacking() then s.(stopped := true) else s.(parsedEnd := end, payloadAllowed := false)
  }

  function OnHeader(s: Scan, header: Header, end: nat): Scan {
    if s.Lacking() then s.(stopped := true)
    else
      s.(sections := s.sections + [Section(header.target, 0, 0, 0)], format := header.format, parsedEnd := end,
         needsPayload := false, payloadAllowed := false, sawPayload := false)
  }

  function OnNew(g: Grammar, s: Scan, line: string, end: nat): Scan
    requires s.sections != []
  {
    var insert, range := g.newInsert(line), g.newRange(line);
    if s.payloadAllowed && !NewBlocker(line) && insert.None? && range.None? then
      s.(sections := Bump(s.sections, 0, 1, 0), parsedEnd := end)
    else if Blank(line) then s.(parsedEnd := end, payloadAllowed := false)
    else if insert.Some? then
      s.(sections := Bump(s.sections, 1, if insert.value then 1 else 0, 0), parsedEnd := end, payloadAllowed := true)
    else if range.Some? then
      var r := range.value;
      s.(sections := Bump(s.sections, 1, if r.replacing && r.inline then 1 else 0, r.deleted), parsedEnd := end,
         payloadAllowed := r.replacing)
    else s.(stopped := true)
  }

  function OnLegacy(g: Grammar, s: Scan, line: string, end: nat): Scan
    requires s.sections != []
  {
    var replace := g.legacyReplace(line);
    if s.payloadAllowed && !LegacyBlocker(line) then
      s.(sections := Bump(s.sections, 0, 1, 0), parsedEnd := end, sawPayload := true, needsPayload := false)
    else if s.Lacking() then s.(stopped := true)
    else if Blank(line) then s.(parsedEnd := end, payloadAllowed := false, needsPayload := false, sawPayload := false)
    else if g.legacyInsert(line) then
      s.(sections := Bump(s.sections, 1, 0, 0), needsPayload := true, payloadAllowed := true, sawPayload := false)
    else if replace.Some? then
      s.(sections := Bump(s.sections, 1, 0, replace.value), parsedEnd := end, needsPayload := false,
         payloadAllowed := true, sawPayload := false)
    else s.(stopped := true)
  }

  function OnContent(g: Grammar, s: Scan, line: string, end: nat): Scan {
    if g.beginPatch(line) || g.endPatch(line) then OnMarker(s, end)
    else if g.header(line).Some? then OnHeader(s, g.header(line).value, end)
    else if s.sections == [] then s.(stopped := true)
    else if s.format == New then OnNew(g, s, line, end)
    else OnLegacy(g, s, line, end)
  }

  function Step(g: Grammar, s: Scan, span: Span): Scan {
    if s.stopped then s
    else
      var t := s.(lineNo := s.lineNo + 1);
      if !t.seenContent && Blank(span.line) then t.(parsedEnd := span.end)
      else OnContent(g, t.(seenContent := true), span.line, span.end)
  }

  function ScanLines(g: Grammar, spans: seq<Span>): Scan {
    if spans == [] then Begin() else Step(g, ScanLines(g, spans[..|spans| - 1]), spans[|spans| - 1])
  }

  // ---- the parser ----

  datatype Reason = Ok | NoCompleteEditPrefix | InsertMissingPayload

  /** `LegacyDiff`: the text goes to the older diff parser, which is not part of this model. */
  datatype Boundary =
    | LegacyDiff
    | Boundary(ok: bool, parsedEnd: nat, reason: Reason, sections: seq<Section>, lineNo: nat)

  predicate StartsWithDashes(text: string) {
    "---" <= LStrip(text)
  }

  function Finish(s: Scan, text: string): Boundary {
    var ok := s.parsedEnd > 0 && s.sections != [];
    if s.sections == [] && StartsWithDashes(text) then LegacyDiff
    else Boundary(ok, s.parsedEnd,
                  if s.Lacking() then InsertMissingPayload else if ok then Ok else NoCompleteEditPrefix,
                  s.sections, s.lineNo)
  }

  function Parse(g: Grammar, text: string): Boundary {
    Finish(ScanLines(g, Spans(text)), text)
  }

  /** How far the scan of the main path gets. */
  function ParsedEnd(g: Grammar, text: string): nat {
    ScanLines(g, Spans(text)).parsedEnd
  }

  method ParseEditBoundary(g: Grammar, text: string) returns (boundary: Boundary)
    ensures boundary == Parse(g, text)
  {
    var spans := LineSpans(text);
    var s := Begin();
    var i := 0;
    while i < |spans| && !s.stopped
      invariant 0 <= i <= |spans| && s == ScanLines(g, spans[..i])
    {
      assert spans[..i + 1][..i] == spans[..i];
      s := OneLine(g, s, spans[i]);
      i := i + 1;
    }
    StoppedStays(g, spans, i);
    assert spans[..|spans|] == spans;
    boundary := Finish(s, text);
  }

  /** One turn of the loop, on the variables the loop updates. */
  method OneLine(g: Grammar, before: Scan, span: Span) returns (s: Scan)
    requires !before.stopped
    ensures s == Step(g, before, span) && Moves(before, s, span.end)
  {
    var sections, format, parsedEnd, lineNo := before.sections, before.format, before.parsedEnd, before.lineNo;
    var needsPayload, payloadAllowed, sawPayload := before.needsPayload, before.payloadAllowed, before.sawPayload;
    var seenContent, stopped := before.seenContent, false;
    var line, end := span.line, span.end;
    lineNo := lineNo + 1;
    if !seenContent && Blank(line) {
      parsedEnd := end;
    } else {
      seenContent := true;
      var header, insert, range, replace := g.header(line), g.newInsert(line), g.newRange(line), g.legacyReplace(line);
      if g.beginPatch(line) || g.endPatch(line) {
        if needsPayload && !sawPayload {
          stopped := true;
        } else {
          parsedEnd, payloadAllowed := end, false;
        }
      } else if header.Some? {
        if needsPayload && !sawPayload {
          stopped := true;
        } else {
          format := header.value.format;
          sections := sections + [Section(header.value.target, 0, 0, 0)];
          parsedEnd := end;
          needsPayload, payloadAllowed, sawPayload := false, false, false;
        }
      } else if sections == [] {
        stopped := true;
      } else if format == New {
        if payloadAllowed && !NewBlocker(line) && insert.None? && range.None? {
          sections, parsedEnd := Bump(sections, 0, 1, 0), end;
        } else if Blank(line) {
          parsedEnd, payloadAllowed := end, false;
        } else if insert.Some? {
          sections := Bump(sections, 1, if insert.value then 1 else 0, 0);
          parsedEnd, payloadAllowed := end, true;
        } else if range.Some? {
          sections := Bump(sections, 1, if range.value.replacing && range.value.inline then 1 else 0,
                           range.value.deleted);
          parsedEnd, payloadAllowed := end, range.value.replacing;
        } else {
          stopped := true;
        }
      } else if payloadAllowed && !LegacyBlocker(line) {
        sections, parsedEnd := Bump(sections, 0, 1, 0), end;
        sawPayload, needsPayload := true, false;
      } else if needsPayload && !sawPayload {
        stopped := true;
      } else if Blank(line) {
        parsedEnd := end;
        payloadAllowed, needsPayload, sawPayload := false, false, false;
      } else if g.legacyInsert(line) {
        sections := Bump(sections, 1, 0, 0);
        needsPayload, payloadAllowed, sawPayload := true, true, false;
      } else if replace.Some? {
        sections, parsedEnd := Bump(sections, 1, 0, replace.value), end;
        needsPayload, payloadAllowed, sawPayload := false, true, false;
      } else {
        stopped := true;
      }
    }
    s := Scan(sections, format, parsedEnd, lineNo, needsPayload, payloadAllowed, sawPayload, seenContent, stopped);
    StepMoves(g, before, span);
  }

  lemma {:induction false} StoppedStays(g: Grammar, spans: seq<Span>, i: nat)
    requires i <= |spans| && (i == |spans| || ScanLines(g, spans[..i]).stopped)
    ensures ScanLines(g, spans) == ScanLines(g, spans[..i])
    decreases |spans| - i
  {
    if i == |spans| {
      assert spans[..i] == spans;
    } else {
      assert spans[..i + 1][..i] == spans[..i];
      StoppedStays(g, spans, i + 1);
    }
  }

  // ---- where the scan got to ----

  /** Where line `m` ends; line 0 stands for the start of the text. */
  function EndOf(spans: seq<Span>, m: nat): nat
    requires m <= |spans|
  {
    if m == 0 then 0 else spans[m - 1].end
  }

  /** In the new format nothing ever lacks payload; before any content nothing does either. */
  predicate Sound(s: Scan) {
    (s.Lacking() ==> s.sections != [] && s.format != New && s.seenContent) && (!s.seenContent ==> s.sections == [])
  }

  /** A step either completes its line, with no insert left lacking payload, or leaves the end alone. */
  predicate Moves(s: Scan, t: Scan, end: nat) {
    Sound(s) ==> Sound(t) && (t.parsedEnd == s.parsedEnd || (t.parsedEnd == end && !t.stopped && !t.Lacking()))
  }

  lemma StepMoves(g: Grammar, s: Scan, span: Span)
    ensures Moves(s, Step(g, s, span), span.end)
  {
  }

  /** States of the scan before and after every line. */
  ghost predicate Steps(spans: seq<Span>, states: seq<Scan>) {
    && |states| == |spans| + 1 && states[0] == Begin()
    && (forall i :: 0 <= i < |spans| ==> Moves(states[i], states[i + 1], spans[i].end))
  }

  lemma TraceOf(g: Grammar, spans: seq<Span>) returns (states: seq<Scan>)
    ensures Steps(spans, states) && forall i :: 0 <= i <= |spans| ==> states[i] == ScanLines(g, spans[..i])
  {
    states := seq(|spans| + 1, i requires 0 <= i <= |spans| => ScanLines(g, spans[..i]));
    assert spans[..0] == [];
    forall i | 0 <= i < |spans| ensures Moves(states[i], states[i + 1], spans[i].end) {
      assert spans[..i + 1][..i] == spans[..i];
      StepMoves(g, states[i], spans[i]);
    }
  }

  predicate AtEnd(spans: seq<Span>, states: seq<Scan>, k: nat)
    requires |states| == |spans| + 1 && k <= |spans|
  {
    states[k].parsedEnd == EndOf(spans, k)
  }

  /** The scan's end is the end of the last consumed line; nothing lacks payload there. */
  ghost predicate Furthest(spans: seq<Span>, states: seq<Scan>, n: nat, m: nat)
    requires |states| == |spans| + 1 && n <= |spans|
  {
    && m <= n && states[n].parsedEnd == EndOf(spans, m)
    && AtEnd(spans, states, m) && !states[m].Lacking() && !states[m].stopped
    && (forall k :: m < k <= n ==> !AtEnd(spans, states, k))
  }

  lemma {:induction false} LastConsumed(spans: seq<Span>, states: seq<Scan>, n: nat) returns (m: nat)
    requires Growing(spans, 0) && Steps(spans, states) && n <= |spans|
    ensures Furthest(spans, states, n, m) && Sound(states[n])
  {
    if n == 0 {
      m := 0;
    } else {
      m := LastConsumed(spans, states, n - 1);
      var s, t := states[n - 1], states[n];
      assert Moves(s, t, spans[n - 1].end);
      if t.parsedEnd == spans[n - 1].end {
        m := n;
      } else {
        assert !AtEnd(spans, states, n);
      }
    }
  }

  // ---- the properties ----

  lemma EndInText(text: string, m: nat)
    requires m <= |Spans(text)|
    ensures var k := EndOf(Spans(text), m); k <= |text| && (k == 0 <==> m == 0) && (k == 0 || LineEnd(text, k))
  {
    var spans := Spans(text);
    SpansGrow(text, 0);
    if m > 0 {
      assert m == |spans| || spans[m - 1].end < spans[|spans| - 1].end;
      assert EndsAt(spans, spans[m - 1].end);
      SpansEnd(text, 0, spans[m - 1].end);
    }
  }

  lemma CountLines(spans: seq<Span>, head: seq<Span>, m: nat, k: nat)
    requires Growing(spans, 0) && head <= spans && m <= |spans| && k == EndOf(spans, m)
    requires if k == 0 then head == [] else head != [] && head[|head| - 1].end == k
    ensures head == spans[..m]
  {
    if m > 0 {
      var last := |head| - 1;
      assert head[last] == spans[last];
      assert last == m - 1;
    }
  }

  lemma HeadIsPrefix(text: string, k: nat)
    requires k == 0 || LineEnd(text, k)
    ensures Spans(text[..k]) <= Spans(text)
  {
    SpansSplit(text, k, 0, text[..k]);
  }

  /** A text cut at the end of its line `m` has just its first `m` lines. */
  lemma PrefixLines(text: string, m: nat, k: nat)
    requires m <= |Spans(text)| && k == EndOf(Spans(text), m)
    ensures k <= |text| && (k == 0 || LineEnd(text, k)) && Spans(text[..k]) == Spans(text)[..m]
  {
    EndInText(text, m);
    HeadIsPrefix(text, k);
    SpansGrow(text, 0);
    SpansGrow(text[..k], 0);
    if k == 0 { assert text[..k] == ""; }
    CountLines(Spans(text), Spans(text[..k]), m, k);
  }

  /** The number of a line that ends at `k`. */
  lemma LineOfEnd(text: string, k: nat) returns (m: nat)
    requires LineEnd(text, k)
    ensures 0 < m <= |Spans(text)| && EndOf(Spans(text), m) == k
  {
    SpansEnd(text, 0, k);
    var i :| 0 <= i < |Spans(text)| && Spans(text)[i].end == k;
    m := i + 1;
  }

  lemma {:induction false} NoDashesInPrefix(text: string, k: nat)
    requires k <= |text| && !StartsWithDashes(text)
    ensures !StartsWithDashes(text[..k])
  {
    if k > 0 && IsSpace(text[0]) {
      assert text[..k][1..] == text[1..][..k - 1];
      NoDashesInPrefix(text[1..], k - 1);
    } else {
      assert LStrip(text[..k]) == text[..k] <= text;
    }
  }

  /** The end is the start of the text or a line end; scanning just that prefix consumes all of it, with no
      insert left lacking payload; and no longer run of lines is consumed. */
  lemma LongestCompletePrefix(g: Grammar, text: string)
    requires !StartsWithDashes(text)
    ensures var e := ParsedEnd(g, text);
      && e <= |text| && (e == 0 || LineEnd(text, e))
      && ParsedEnd(g, text[..e]) == e
      && Parse(g, text[..e]).Boundary? && Parse(g, text[..e]).reason != InsertMissingPayload
      && (forall k :: e < k <= |text| && LineEnd(text, k) ==> ParsedEnd(g, text[..k]) < k)
  {
    var spans, e := Spans(text), ParsedEnd(g, text);
    SpansGrow(text, 0);
    var states := TraceOf(g, spans);
    assert spans[..|spans|] == spans;
    var m := LastConsumed(spans, states, |spans|);
    PrefixLines(text, m, e);
    NoDashesInPrefix(text, e);
    ConsumedPrefix(g, text, e, m, states[m]);
    forall k | e < k <= |text| && LineEnd(text, k) ensures ParsedEnd(g, text[..k]) < k {
      var j := LineOfEnd(text, k);
      PrefixLines(text, j, k);
      BeyondFurthest(spans, states, m, j);
    }
  }

  lemma ConsumedPrefix(g: Grammar, text: string, e: nat, m: nat, s: Scan)
    requires e <= |text| && m <= |Spans(text)| && Spans(text[..e]) == Spans(text)[..m]
    requires s == ScanLines(g, Spans(text)[..m]) && s.parsedEnd == e && !s.Lacking() && !StartsWithDashes(text[..e])
    ensures ParsedEnd(g, text[..e]) == e
    ensures Parse(g, text[..e]).Boundary? && Parse(g, text[..e]).reason != InsertMissingPayload
  {
  }

  lemma BeyondFurthest(spans: seq<Span>, states: seq<Scan>, m: nat, j: nat)
    requires Growing(spans, 0) && Steps(spans, states) && Furthest(spans, states, |spans|, m) && j <= |spans|
    requires EndOf(spans, j) > EndOf(spans, m)
    ensures states[j].parsedEnd < EndOf(spans, j)
  {
    assert j > m;
    assert !AtEnd(spans, states, j);
    var i := LastConsumed(spans, states, j);
    assert i < j;
  }

  lemma {:induction false} ScanOnlyAdvances(g: Grammar, spans: seq<Span>, more: seq<Span>)
    requires Growing(spans + more, 0)
    ensures ScanLines(g, spans).parsedEnd <= ScanLines(g, spans + more).parsedEnd
  {
    var all := spans + more;
    var states := TraceOf(g, all);
    assert all[..|spans|] == spans && all[..|all|] == all;
    StatesAdvance(all, states, |spans|, |all|);
  }

  lemma {:induction false} StatesAdvance(spans: seq<Span>, states: seq<Scan>, i: nat, j: nat)
    requires Growing(spans, 0) && Steps(spans, states) && i <= j <= |spans|
    ensures states[i].parsedEnd <= states[j].parsedEnd
  {
    if i < j {
      StatesAdvance(spans, states, i, j - 1);
      var m := LastConsumed(spans, states, j - 1);
      assert Moves(states[j - 1], states[j], spans[j - 1].end);
    }
  }

  /** Text that grows by whole lines never loses what was already complete. */
  lemma AppendingNeverLosesLines(g: Grammar, text: string, more: string)
    requires text == "" || LineEnd(text + more, |text|)
    ensures ParsedEnd(g, text) <= ParsedEnd(g, text + more)
  {
    var all := text + more;
    assert all[..|text|] == text;
    SpansSplit(all, |text|, 0, text);
    SpansGrow(all, 0);
    ScanOnlyAdvances(g, Spans(text), SpansFrom(all, |text|));
  }
}
