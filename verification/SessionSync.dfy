/** A session log synced into tables in pieces, against one sync of the whole. */
module SessionSync {
  import opened Basics

  type Byte = b: int | 0 <= b < 256

  const NEWLINE: Byte := 10

  // ---- the file ----

  /** Length of the first line, its newline included; the last line may lack one. */
  function FirstLine(bytes: seq<Byte>): (n: nat)
    requires bytes != []
    ensures 0 < n <= |bytes|
  {
    if bytes[0] == NEWLINE || |bytes| == 1 then 1 else 1 + FirstLine(bytes[1..])
  }

  function Lines(bytes: seq<Byte>): seq<seq<Byte>> {
    if bytes == [] then [] else [bytes[..FirstLine(bytes)]] + Lines(bytes[FirstLine(bytes)..])
  }

  /** Empty, or ending on a newline. */
  predicate Whole(bytes: seq<Byte>) {
    bytes == [] || bytes[|bytes| - 1] == NEWLINE
  }

  lemma {:induction false} FirstLineOfJoin(a: seq<Byte>, b: seq<Byte>)
    requires a != [] && (Whole(a) || FirstLine(a) < |a|)
    ensures FirstLine(a + b) == FirstLine(a)
    ensures FirstLine(a) < |a| ==> a[FirstLine(a) - 1] == NEWLINE
  {
    if a[0] != NEWLINE && |a| > 1 {
      assert (a + b)[1..] == a[1..] + b;
      FirstLineOfJoin(a[1..], b);
    }
  }

  lemma LinesOnce(bytes: seq<Byte>, n: nat)
    requires bytes != [] && n == FirstLine(bytes)
    ensures Lines(bytes) == [bytes[..n]] + Lines(bytes[n..])
  {
  }

  lemma CutJoin(a: seq<Byte>, b: seq<Byte>, n: nat)
    requires n <= |a|
    ensures (a + b)[..n] == a[..n] && (a + b)[n..] == a[n..] + b
  {
  }

  lemma Prepend(x: seq<Byte>, a: seq<seq<Byte>>, b: seq<seq<Byte>>)
    ensures [x] + (a + b) == ([x] + a) + b
  {
  }

  /** Text that ends on a newline keeps its lines when more is appended. */
  lemma {:induction false} LinesJoin(a: seq<Byte>, b: seq<Byte>)
    requires Whole(a)
    ensures Lines(a + b) == Lines(a) + Lines(b)
    decreases |a|
  {
    if a == [] {
      assert a + b == b;
    } else {
      var n := FirstLine(a);
      FirstLineOfJoin(a, b);
      CutJoin(a, b, n);
      LinesJoin(a[n..], b);
      LinesOnce(a + b, n);
      LinesOnce(a, n);
      Prepend(a[..n], Lines(a[n..]), Lines(b));
    }
  }

  /** A torn last line and its continuation are counted twice: the counts add up just when no line is torn. */
  lemma {:induction false} LineCountAddsIff(a: seq<Byte>, b: seq<Byte>)
    ensures |Lines(a)| + |Lines(b)| == |Lines(a + b)| + if Whole(a) || b == [] then 0 else 1
    decreases |a|
  {
    if Whole(a) {
      LinesJoin(a, b);
    } else if b == [] {
      assert a + b == a;
    } else {
      var n := FirstLine(a);
      if n < |a| {
        FirstLineOfJoin(a, b);
        assert (a + b)[n..] == a[n..] + b;
        LineCountAddsIff(a[n..], b);
      } else {
        TornLine(a, b);
      }
    }
  }

  lemma {:induction false} TornFirst(a: seq<Byte>, b: seq<Byte>)
    requires a != [] && b != [] && FirstLine(a) == |a| && !Whole(a)
    ensures FirstLine(a + b) == |a| + FirstLine(b)
  {
    assert a[0] != NEWLINE;
    assert (a + b)[1..] == a[1..] + b;
    if |a| > 1 { TornFirst(a[1..], b); } else { assert a[1..] + b == b; }
  }

  lemma TornLine(a: seq<Byte>, b: seq<Byte>)
    requires a != [] && b != [] && FirstLine(a) == |a| && !Whole(a)
    ensures |Lines(a + b)| == |Lines(b)| && |Lines(a)| == 1
  {
    TornFirst(a, b);
    var n := FirstLine(b);
    AfterTorn(a, b, n);
    var rest := b[n..];
    CountedOnce(a + b, |a| + n, rest);
    CountedOnce(b, n, rest);
    CountedOnce(a, |a|, []);
  }

  lemma CountedOnce(bytes: seq<Byte>, n: nat, rest: seq<Byte>)
    requires bytes != [] && n == FirstLine(bytes) <= |bytes| && rest == bytes[n..]
    ensures |Lines(bytes)| == 1 + |Lines(rest)|
    ensures rest == [] ==> |Lines(bytes)| == 1
  {
    LinesOnce(bytes, n);
  }

  lemma AfterTorn(a: seq<Byte>, b: seq<Byte>, n: nat)
    requires n <= |b|
    ensures (a + b)[|a| + n..] == b[n..] && a[|a|..] == []
  {
  }

  // ---- what a line says ----

  /** Session metadata; a field is null until a header gives it. */
  datatype Meta = Meta(uuid: Option<string>, version: Option<int>, title: Option<string>, cwd: Option<string>,
                       startedAt: Option<int>)

  const NO_META := Meta(None, None, None, None, None)

  datatype EditInput = EditInput(timestamp: int, rawLength: int, sections: seq<string>)

  datatype ToolCall = ToolCall(callId: string, body: string, edit: Option<EditInput>)

  datatype Verdict = Verdict(success: bool, warnings: string)

  /** A decoded line: blank and malformed lines are skipped, and so are lines of other kinds. */
  datatype Line =
    | Skip
    | Header(meta: Meta)
    | Assistant(calls: seq<ToolCall>, text: Option<string>)
    | ToolResult(callId: string, body: string, edit: Option<Verdict>)
    | User(text: Option<string>)

  // ---- what one parse collects ----

  datatype CallKey = CallKey(callId: string, seqNo: nat)
  datatype SectionKey = SectionKey(callId: string, index: nat)
  datatype SectionRow = SectionRow(seqNo: nat, body: string)
  datatype EditCall = EditCall(seqNo: nat, timestamp: int, rawLength: int)

  datatype Records = Records(
    meta: Meta,
    toolCalls: seq<(CallKey, string)>,
    toolResults: seq<(CallKey, string)>,
    assistantMsgs: seq<(nat, string)>,
    userMsgs: seq<(nat, string)>,
    editCalls: seq<(string, EditCall)>,
    editResults: seq<(string, Verdict)>,
    editSections: seq<(SectionKey, SectionRow)>)

  const NOTHING := Records(NO_META, [], [], [], [], [], [], [])

  function Coalesce<T>(a: Option<T>, b: Option<T>): Option<T> {
    if a.Some? then a else b
  }

  function MergeMeta(later: Meta, earlier: Meta): Meta {
    Meta(Coalesce(later.uuid, earlier.uuid), Coalesce(later.version, earlier.version),
         Coalesce(later.title, earlier.title),
         Coalesce(later.cwd, earlier.cwd), Coalesce(later.startedAt, earlier.startedAt))
  }

  function Append(a: Records, b: Records): Records {
    Records(MergeMeta(b.meta, a.meta), a.toolCalls + b.toolCalls, a.toolResults + b.toolResults,
            a.assistantMsgs + b.assistantMsgs, a.userMsgs + b.userMsgs, a.editCalls + b.editCalls,
            a.editResults + b.editResults, a.editSections + b.editSections)
  }

  function SectionRows(callId: string, seqNo: nat, sections: seq<string>): seq<(SectionKey, SectionRow)> {
    seq(|sections|, i requires 0 <= i < |sections| => (SectionKey(callId, i), SectionRow(seqNo, sections[i])))
  }

  function IngestCall(rec: Records, seqNo: nat, call: ToolCall): Records {
    var rec := rec.(toolCalls := rec.toolCalls + [(CallKey(call.callId, seqNo), call.body)]);
    if call.edit.None? then rec
    else
      var edit := call.edit.value;
      rec.(editCalls := rec.editCalls + [(call.callId, EditCall(seqNo, edit.timestamp, edit.rawLength))],
           editSections := rec.editSections + SectionRows(call.callId, seqNo, edit.sections))
  }

  function IngestCalls(rec: Records, seqNo: nat, calls: seq<ToolCall>): Records {
    if calls == [] then rec
    else IngestCall(IngestCalls(rec, seqNo, calls[..|calls| - 1]), seqNo, calls[|calls| - 1])
  }

  function Ingest(rec: Records, seqNo: nat, line: Line): Records {
    match line
    case Skip => rec
    case Header(meta) => if seqNo == 0 then rec.(meta := meta) else rec
    case Assistant(calls, text) =>
      var rec := IngestCalls(rec, seqNo, calls);
      if text.Some? then rec.(assistantMsgs := rec.assistantMsgs + [(seqNo, text.value)]) else rec
    case ToolResult(callId, body, edit) =>
      var rec := rec.(toolResults := rec.toolResults + [(CallKey(callId, seqNo), body)]);
      if edit.Some? then rec.(editResults := rec.editResults + [(callId, edit.value)]) else rec
    case User(text) =>
      if text.Some? then rec.(userMsgs := rec.userMsgs + [(seqNo, text.value)]) else rec
  }

  type Decoder = seq<Byte> -> Line

  function Collect(decode: Decoder, lines: seq<seq<Byte>>, startSeq: nat): Records {
    if lines == [] then NOTHING
    else
      var n := |lines| - 1;
      Ingest(Collect(decode, lines[..n], startSeq), startSeq + n, decode(lines[n]))
  }

  /** What was collected stays, and every row added bears the number of the line. */
  predicate AddsOnly(rec: Records, more: Records, seqNo: nat) {
    && (seqNo > 0 ==> more.meta == rec.meta)
    && rec.toolCalls <= more.toolCalls && rec.toolResults <= more.toolResults
    && rec.assistantMsgs <= more.assistantMsgs && rec.userMsgs <= more.userMsgs
    && rec.editCalls <= more.editCalls && rec.editResults <= more.editResults && rec.editSections <= more.editSections
    && (forall i :: |rec.toolCalls| <= i < |more.toolCalls| ==> more.toolCalls[i].0.seqNo == seqNo)
    && (forall i :: |rec.toolResults| <= i < |more.toolResults| ==> more.toolResults[i].0.seqNo == seqNo)
    && (forall i :: |rec.assistantMsgs| <= i < |more.assistantMsgs| ==> more.assistantMsgs[i].0 == seqNo)
    && (forall i :: |rec.userMsgs| <= i < |more.userMsgs| ==> more.userMsgs[i].0 == seqNo)
    && (forall i :: |rec.editCalls| <= i < |more.editCalls| ==> more.editCalls[i].1.seqNo == seqNo)
    && (forall i :: |rec.editSections| <= i < |more.editSections| ==> more.editSections[i].1.seqNo == seqNo)
  }

  lemma {:induction false} CallsAddOnly(rec: Records, seqNo: nat, calls: seq<ToolCall>)
    ensures AddsOnly(rec, IngestCalls(rec, seqNo, calls), seqNo)
  {
    if calls != [] { CallsAddOnly(rec, seqNo, calls[..|calls| - 1]); }
  }

  lemma IngestAddsOnly(rec: Records, seqNo: nat, line: Line)
    ensures AddsOnly(rec, Ingest(rec, seqNo, line), seqNo)
  {
    if line.Assistant? { CallsAddOnly(rec, seqNo, line.calls); }
  }

  /** The dispatch on the kind of a line. */
  method IngestLine(rec: Records, seqNo: nat, line: Line) returns (more: Records)
    ensures more == Ingest(rec, seqNo, line) && AddsOnly(rec, more, seqNo)
  {
    IngestAddsOnly(rec, seqNo, line);
    more := rec;
    match line {
      case Skip =>
      case Header(meta) =>
        if seqNo == 0 { more := more.(meta := meta); }
      case Assistant(calls, text) =>
        for i := 0 to |calls|
          invariant more == IngestCalls(rec, seqNo, calls[..i])
        {
          assert calls[..i + 1][..i] == calls[..i];
          more := IngestCall(more, seqNo, calls[i]);
        }
        assert calls[..|calls|] == calls;
        if text.Some? { more := more.(assistantMsgs := more.assistantMsgs + [(seqNo, text.value)]); }
      case ToolResult(callId, body, edit) =>
        more := more.(toolResults := more.toolResults + [(CallKey(callId, seqNo), body)]);
        if edit.Some? { more := more.(editResults := more.editResults + [(callId, edit.value)]); }
      case User(text) =>
        if text.Some? { more := more.(userMsgs := more.userMsgs + [(seqNo, text.value)]); }
    }
  }

  lemma CollectSnoc(decode: Decoder, lines: seq<seq<Byte>>, raw: seq<Byte>, startSeq: nat)
    ensures Collect(decode, lines + [raw], startSeq)
              == Ingest(Collect(decode, lines, startSeq), startSeq + |lines|, decode(raw))
  {
    assert (lines + [raw])[..|lines|] == lines;
  }

  /** The line that starts at `offset`. */
  function LineAt(bytes: seq<Byte>, offset: nat): (raw: seq<Byte>)
    requires offset < |bytes|
    ensures 0 < |raw| == FirstLine(bytes[offset..]) <= |bytes| - offset
  {
    bytes[offset..offset + FirstLine(bytes[offset..])]
  }

  lemma CutTwice<T>(s: seq<T>, from: nat, n: nat)
    requires from + n <= |s|
    ensures s[from..][n..] == s[from + n..] && s[from..][..n] == s[from..from + n]
  {
  }

  lemma LinesFrom(bytes: seq<Byte>, offset: nat)
    requires offset < |bytes|
    ensures Lines(bytes[offset..]) == [LineAt(bytes, offset)] + Lines(bytes[offset + |LineAt(bytes, offset)|..])
  {
    var n := |LineAt(bytes, offset)|;
    CutTwice(bytes, offset, n);
    LinesCut(bytes[offset..], n, LineAt(bytes, offset), bytes[offset + n..]);
  }

  lemma LinesCut(bytes: seq<Byte>, n: nat, first: seq<Byte>, after: seq<Byte>)
    requires bytes != [] && n == FirstLine(bytes) && first == bytes[..n] && after == bytes[n..]
    ensures Lines(bytes) == [first] + Lines(after)
  {
  }

  lemma MoveOne<T>(all: seq<T>, lines: seq<T>, x: T, before: seq<T>, after: seq<T>)
    requires all == lines + before && before == [x] + after
    ensures all == (lines + [x]) + after
  {
  }

  /** Halfway through a read: `lines` are behind `offset`, and `rec` holds what they say. */
  ghost predicate Reading(decode: Decoder, bytes: seq<Byte>, startSeq: nat, all: seq<seq<Byte>>, lines: seq<seq<Byte>>,
                          offset: nat, rec: Records) {
    offset <= |bytes| && all == lines + Lines(bytes[offset..]) && rec == Collect(decode, lines, startSeq)
  }

  /** What a read from `offset` sees. */
  function Rest(bytes: seq<Byte>, offset: nat): seq<Byte> {
    if offset <= |bytes| then bytes[offset..] else []
  }

  lemma ReadingStarts(decode: Decoder, bytes: seq<Byte>, startSeq: nat, all: seq<seq<Byte>>, offset: nat)
    requires offset <= |bytes| && all == Lines(Rest(bytes, offset))
    ensures Reading(decode, bytes, startSeq, all, [], offset, NOTHING)
  {
  }

  lemma ReadingNothing(decode: Decoder, bytes: seq<Byte>, startSeq: nat, offset: nat)
    requires offset > |bytes|
    ensures Lines(Rest(bytes, offset)) == [] && Collect(decode, [], startSeq) == NOTHING
  {
  }

  lemma ReadingStep(decode: Decoder, bytes: seq<Byte>, startSeq: nat, all: seq<seq<Byte>>, lines: seq<seq<Byte>>,
                    offset: nat, rec: Records, raw: seq<Byte>)
    requires Reading(decode, bytes, startSeq, all, lines, offset, rec) && offset < |bytes|
    requires raw == LineAt(bytes, offset)
    ensures Reading(decode, bytes, startSeq, all, lines + [raw], offset + |raw|,
                    Ingest(rec, startSeq + |lines|, decode(raw)))
  {
    LinesFrom(bytes, offset);
    MoveOne(all, lines, raw, Lines(bytes[offset..]), Lines(bytes[offset + |raw|..]));
    CollectSnoc(decode, lines, raw, startSeq);
  }

  lemma ReadingEnds(decode: Decoder, bytes: seq<Byte>, startSeq: nat, all: seq<seq<Byte>>, lines: seq<seq<Byte>>,
                    rec: Records)
    requires Reading(decode, bytes, startSeq, all, lines, |bytes|, rec)
    ensures lines == all && rec == Collect(decode, all, startSeq)
  {
    assert bytes[|bytes|..] == [];
  }

  /** One turn of the reading loop. */
  method ReadLine(decode: Decoder, bytes: seq<Byte>, startSeq: nat, ghost all: seq<seq<Byte>>,
                  ghost lines: seq<seq<Byte>>, offset: nat, count: nat, rec: Records, raw: seq<Byte>)
    returns (more: Records)
    requires Reading(decode, bytes, startSeq, all, lines, offset, rec) && count == startSeq + |lines|
    requires offset < |bytes| && raw == LineAt(bytes, offset)
    ensures Reading(decode, bytes, startSeq, all, lines + [raw], offset + |raw|, more)
  {
    ReadingStep(decode, bytes, startSeq, all, lines, offset, rec, raw);
    more := IngestLine(rec, count, decode(raw));
  }

  /** Reads the lines from `startOffset` on, numbering them from `startSeq`. */
  method ParseFile(decode: Decoder, bytes: seq<Byte>, startOffset: nat, startSeq: nat)
    returns (rec: Records, finalOffset: nat, finalLineCount: nat)
    ensures rec == Collect(decode, Lines(Rest(bytes, startOffset)), startSeq)
    ensures finalOffset == startOffset + |Rest(bytes, startOffset)|
    ensures finalLineCount == startSeq + |Lines(Rest(bytes, startOffset))|
  {
    rec, finalOffset, finalLineCount := NOTHING, startOffset, startSeq;
    ghost var all := Lines(Rest(bytes, startOffset));
    if startOffset > |bytes| {
      ReadingNothing(decode, bytes, startSeq, startOffset);
      return;
    }
    ghost var lines: seq<seq<Byte>> := [];
    ReadingStarts(decode, bytes, startSeq, all, startOffset);
    while finalOffset < |bytes|
      invariant Reading(decode, bytes, startSeq, all, lines, finalOffset, rec)
      invariant finalLineCount == startSeq + |lines|
      decreases |bytes| - finalOffset
    {
      var raw := LineAt(bytes, finalOffset);
      rec := ReadLine(decode, bytes, startSeq, all, lines, finalOffset, finalLineCount, rec, raw);
      finalOffset, finalLineCount := finalOffset + |raw|, finalLineCount + 1;
      lines := lines + [raw];
    }
    ReadingEnds(decode, bytes, startSeq, all, lines, rec);
  }

  // ---- parsing in two pieces ----

  lemma IngestCallAppends(a: Records, b: Records, seqNo: nat, call: ToolCall)
    ensures IngestCall(Append(a, b), seqNo, call) == Append(a, IngestCall(b, seqNo, call))
  {
    var rows := if call.edit.Some? then SectionRows(call.callId, seqNo, call.edit.value.sections) else [];
    assert (a.toolCalls + b.toolCalls) + [(CallKey(call.callId, seqNo), call.body)]
        == a.toolCalls + (b.toolCalls + [(CallKey(call.callId, seqNo), call.body)]);
    assert (a.editSections + b.editSections) + rows == a.editSections + (b.editSections + rows);
    if call.edit.Some? {
      var row := (call.callId, EditCall(seqNo, call.edit.value.timestamp, call.edit.value.rawLength));
      assert (a.editCalls + b.editCalls) + [row] == a.editCalls + (b.editCalls + [row]);
    }
  }

  lemma {:induction false} IngestCallsAppends(a: Records, b: Records, seqNo: nat, calls: seq<ToolCall>)
    ensures IngestCalls(Append(a, b), seqNo, calls) == Append(a, IngestCalls(b, seqNo, calls))
  {
    if calls != [] {
      var init := calls[..|calls| - 1];
      IngestCallsAppends(a, b, seqNo, init);
      IngestCallAppends(a, IngestCalls(b, seqNo, init), seqNo, calls[|calls| - 1]);
    }
  }

  lemma SnocAssoc<T>(a: seq<T>, b: seq<T>, x: T)
    ensures (a + b) + [x] == a + (b + [x])
  {
  }

  /** After the first line, a line adds the same rows whatever was collected before. */
  lemma IngestAppends(a: Records, b: Records, seqNo: nat, line: Line)
    requires line.Header? ==> seqNo > 0
    ensures Ingest(Append(a, b), seqNo, line) == Append(a, Ingest(b, seqNo, line))
  {
    match line
    case Skip =>
    case Header(_) =>
    case Assistant(calls, text) =>
      IngestCallsAppends(a, b, seqNo, calls);
      var mid := IngestCalls(b, seqNo, calls);
      if text.Some? { SnocAssoc(a.assistantMsgs, mid.assistantMsgs, (seqNo, text.value)); }
    case ToolResult(callId, body, edit) =>
      SnocAssoc(a.toolResults, b.toolResults, (CallKey(callId, seqNo), body));
      if edit.Some? { SnocAssoc(a.editResults, b.editResults, (callId, edit.value)); }
    case User(text) =>
      if text.Some? { SnocAssoc(a.userMsgs, b.userMsgs, (seqNo, text.value)); }
  }

  lemma AppendNothing(a: Records)
    ensures Append(a, NOTHING) == a && (a.meta == NO_META ==> Append(NOTHING, a) == a)
  {
  }

  lemma {:induction false} CollectJoin(decode: Decoder, a: seq<seq<Byte>>, b: seq<seq<Byte>>, startSeq: nat)
    requires startSeq + |a| > 0
    ensures Collect(decode, a + b, startSeq)
              == Append(Collect(decode, a, startSeq), Collect(decode, b, startSeq + |a|))
  {
    if b == [] {
      assert a + b == a;
      AppendNothing(Collect(decode, a, startSeq));
    } else {
      var init, last := b[..|b| - 1], b[|b| - 1];
      assert a + b == (a + init) + [last] && b == init + [last];
      CollectSnoc(decode, a + init, last, startSeq);
      CollectSnoc(decode, init, last, startSeq + |a|);
      CollectJoin(decode, a, init, startSeq);
      JoinSnoc(decode, a, init, last, startSeq);
    }
  }

  /** The turn for one more line of the second piece. */
  lemma JoinSnoc(decode: Decoder, a: seq<seq<Byte>>, init: seq<seq<Byte>>, last: seq<Byte>, startSeq: nat)
    requires startSeq + |a| > 0
    ensures Append(Collect(decode, a, startSeq),
                   Ingest(Collect(decode, init, startSeq + |a|), startSeq + |a| + |init|, decode(last)))
      == Ingest(Append(Collect(decode, a, startSeq), Collect(decode, init, startSeq + |a|)),
                startSeq + |a + init|, decode(last))
  {
    IngestAppends(Collect(decode, a, startSeq), Collect(decode, init, startSeq + |a|), startSeq + |a| + |init|,
                  decode(last));
  }

  // ---- the tables ----

  /** The two halves of an edit call's row are written by different statements. */
  datatype EditRow = EditRow(call: EditCall, success: Option<bool>, warnings: string)

  datatype Tables = Tables(
    toolCalls: map<CallKey, string>,
    toolResults: map<CallKey, string>,
    assistantMsgs: map<nat, string>,
    userMsgs: map<nat, string>,
    editCalls: map<string, EditRow>,
    editSections: map<SectionKey, SectionRow>)

  const NO_ROWS := Tables(map[], map[], map[], map[], map[], map[])

  function Replace<K, V>(table: map<K, V>, rows: seq<(K, V)>): map<K, V> {
    if rows == [] then table
    else Replace(table, rows[..|rows| - 1])[rows[|rows| - 1].0 := rows[|rows| - 1].1]
  }

  /** The call's half: inserts a row, or keeps what a result wrote. */
  function UpsertCall(table: map<string, EditRow>, id: string, call: EditCall): map<string, EditRow> {
    table[id := if id in table then table[id].(call := call) else EditRow(call, None, "[]")]
  }

  /** The result's half: inserts a row, or keeps what a call wrote. */
  function UpsertResult(table: map<string, EditRow>, id: string, verdict: Verdict): map<string, EditRow> {
    table[id := EditRow(if id in table then table[id].call else EditCall(0, 0, 0), Some(verdict.success),
                        verdict.warnings)]
  }

  function UpsertCalls(table: map<string, EditRow>, rows: seq<(string, EditCall)>): map<string, EditRow> {
    if rows == [] then table
    else UpsertCall(UpsertCalls(table, rows[..|rows| - 1]), rows[|rows| - 1].0, rows[|rows| - 1].1)
  }

  function UpsertResults(table: map<string, EditRow>, rows: seq<(string, Verdict)>): map<string, EditRow> {
    if rows == [] then table
    else UpsertResult(UpsertResults(table, rows[..|rows| - 1]), rows[|rows| - 1].0, rows[|rows| - 1].1)
  }

  /** What one transaction does to the tables; all calls of the batch are written before its results. */
  function Apply(t: Tables, rec: Records): Tables {
    Tables(Replace(t.toolCalls, rec.toolCalls), Replace(t.toolResults, rec.toolResults),
           Replace(t.assistantMsgs, rec.assistantMsgs), Replace(t.userMsgs, rec.userMsgs),
           UpsertResults(UpsertCalls(t.editCalls, rec.editCalls), rec.editResults),
           Replace(t.editSections, rec.editSections))
  }

  lemma {:induction false} ReplaceJoin<K, V>(table: map<K, V>, a: seq<(K, V)>, b: seq<(K, V)>)
    ensures Replace(table, a + b) == Replace(Replace(table, a), b)
  {
    if b == [] {
      assert a + b == a;
    } else {
      assert (a + b)[..|a + b| - 1] == a + b[..|b| - 1];
      ReplaceJoin(table, a, b[..|b| - 1]);
    }
  }

  lemma {:induction false} UpsertCallsJoin(table: map<string, EditRow>, a: seq<(string, EditCall)>,
                                           b: seq<(string, EditCall)>)
    ensures UpsertCalls(table, a + b) == UpsertCalls(UpsertCalls(table, a), b)
  {
    if b == [] {
      assert a + b == a;
    } else {
      assert (a + b)[..|a + b| - 1] == a + b[..|b| - 1];
      UpsertCallsJoin(table, a, b[..|b| - 1]);
    }
  }

  lemma {:induction false} UpsertResultsJoin(table: map<string, EditRow>, a: seq<(string, Verdict)>,
                                             b: seq<(string, Verdict)>)
    ensures UpsertResults(table, a + b) == UpsertResults(UpsertResults(table, a), b)
  {
    if b == [] {
      assert a + b == a;
    } else {
      assert (a + b)[..|a + b| - 1] == a + b[..|b| - 1];
      UpsertResultsJoin(table, a, b[..|b| - 1]);
    }
  }

  lemma UpsertsCommute(table: map<string, EditRow>, i: string, call: EditCall, j: string, verdict: Verdict)
    ensures UpsertResult(UpsertCall(table, i, call), j, verdict) == UpsertCall(UpsertResult(table, j, verdict), i, call)
  {
  }

  lemma {:induction false} CallPastResults(table: map<string, EditRow>, i: string, call: EditCall,
                                           results: seq<(string, Verdict)>)
    ensures UpsertResults(UpsertCall(table, i, call), results) == UpsertCall(UpsertResults(table, results), i, call)
  {
    if results != [] {
      var init, last := results[..|results| - 1], results[|results| - 1];
      CallPastResults(table, i, call, init);
      UpsertsCommute(UpsertResults(table, init), i, call, last.0, last.1);
    }
  }

  /** A result may arrive in an earlier or a later batch than its call: the order does not matter. */
  lemma {:induction false} CallsPastResults(table: map<string, EditRow>, calls: seq<(string, EditCall)>,
                                            results: seq<(string, Verdict)>)
    ensures UpsertResults(UpsertCalls(table, calls), results) == UpsertCalls(UpsertResults(table, results), calls)
  {
    if calls != [] {
      var init, last := calls[..|calls| - 1], calls[|calls| - 1];
      CallPastResults(UpsertCalls(table, init), last.0, last.1, results);
      CallsPastResults(table, init, results);
    }
  }

  /** Two transactions in a row do what one transaction over both batches does. */
  lemma ApplyJoin(t: Tables, a: Records, b: Records)
    ensures Apply(Apply(t, a), b) == Apply(t, Append(a, b))
  {
    ReplaceJoin(t.toolCalls, a.toolCalls, b.toolCalls);
    ReplaceJoin(t.toolResults, a.toolResults, b.toolResults);
    ReplaceJoin(t.assistantMsgs, a.assistantMsgs, b.assistantMsgs);
    ReplaceJoin(t.userMsgs, a.userMsgs, b.userMsgs);
    ReplaceJoin(t.editSections, a.editSections, b.editSections);
    var calls := UpsertCalls(t.editCalls, a.editCalls);
    CallsPastResults(calls, b.editCalls, a.editResults);
    UpsertCallsJoin(t.editCalls, a.editCalls, b.editCalls);
    UpsertResultsJoin(UpsertCalls(calls, b.editCalls), a.editResults, b.editResults);
  }

  // ---- one sync of one file ----

  const EDIT_PARSER_VERSION := 6

  datatype SessionRow = SessionRow(meta: Meta, mtime: int, size: nat, byteOffset: nat, lineCount: nat,
                                   parserVersion: int)

  /** The rows of one session file. */
  datatype Db = Db(tables: Tables, session: Option<SessionRow>)

  /** One sync: the size and time seen when deciding, those seen when reading, and the bytes then read. */
  datatype Event = Event(size: nat, mtime: int, full: bool, readSize: nat, readMtime: int, bytes: seq<Byte>)

  datatype Action = Action(fullRebuild: bool, offset: nat, seqNo: nat)

  function DecideAction(session: Option<SessionRow>, size: nat, mtime: int, full: bool): Option<Action> {
    if full || session.None? then Some(Action(true, 0, 0))
    else
      var prev := session.value;
      if prev.parserVersion < EDIT_PARSER_VERSION then Some(Action(true, 0, 0))
      else if size == prev.size && mtime <= prev.mtime then None
      else if size < prev.byteOffset then Some(Action(true, 0, 0))
      else if size == prev.byteOffset && mtime > prev.mtime then Some(Action(true, 0, 0))
      else Some(Action(false, prev.byteOffset, prev.lineCount))
  }

  function Write(db: Db, full: bool, rec: Records, offset: nat, lineCount: nat, size: nat, mtime: int): Db {
    var meta := if db.session.None? then rec.meta else MergeMeta(rec.meta, db.session.value.meta);
    Db(Apply(if full then NO_ROWS else db.tables, rec),
       Some(SessionRow(meta, mtime, size, offset, lineCount, EDIT_PARSER_VERSION)))
  }

  function Sync(decode: Decoder, db: Db, e: Event): Db {
    var action := DecideAction(db.session, e.size, e.mtime, e.full);
    if action.None? then db
    else
      var a := action.value;
      var lines := Lines(Rest(e.bytes, a.offset));
      Write(db, a.fullRebuild, Collect(decode, lines, a.seqNo), a.offset + |Rest(e.bytes, a.offset)|,
            a.seqNo + |lines|, e.readSize, e.readMtime)
  }

  /** The stored rows, changed in place. */
  class SessionStore {
    var tables: Tables
    var session: Option<SessionRow>

    function State(): Db
      reads this
    {
      Db(tables, session)
    }

    constructor ()
      ensures State() == Db(NO_ROWS, None)
    {
      tables, session := NO_ROWS, None;
    }

    method WriteRecords(full: bool, rec: Records, offset: nat, lineCount: nat, size: nat, mtime: int)
      modifies this
      ensures State() == Write(old(State()), full, rec, offset, lineCount, size, mtime)
    {
      if full { tables := NO_ROWS; }
      tables := tables.(toolCalls := Replace(tables.toolCalls, rec.toolCalls));
      tables := tables.(toolResults := Replace(tables.toolResults, rec.toolResults));
      tables := tables.(assistantMsgs := Replace(tables.assistantMsgs, rec.assistantMsgs));
      tables := tables.(userMsgs := Replace(tables.userMsgs, rec.userMsgs));
      tables := tables.(editCalls := UpsertCalls(tables.editCalls, rec.editCalls));
      tables := tables.(editCalls := UpsertResults(tables.editCalls, rec.editResults));
      tables := tables.(editSections := Replace(tables.editSections, rec.editSections));
      var meta := if session.None? then rec.meta else MergeMeta(rec.meta, session.value.meta);
      session := Some(SessionRow(meta, mtime, size, offset, lineCount, EDIT_PARSER_VERSION));
    }

    method SyncFile(decode: Decoder, e: Event)
      modifies this
      ensures State() == Sync(decode, old(State()), e)
    {
      var action := DecideAction(session, e.size, e.mtime, e.full);
      if action.Some? {
        var a := action.value;
        var rec, offset, lineCount := ParseFile(decode, e.bytes, a.offset, a.seqNo);
        WriteRecords(a.fullRebuild, rec, offset, lineCount, e.readSize, e.readMtime);
      }
    }
  }

  // ---- against one rebuild ----

  datatype View = View(tables: Tables, meta: Meta, byteOffset: nat, lineCount: nat)

  function ViewOf(db: Db): View
    requires db.session.Some?
  {
    var row := db.session.value;
    View(db.tables, row.meta, row.byteOffset, row.lineCount)
  }

  /** What a sync of the whole file into an empty store gives. */
  function Rebuilt(decode: Decoder, bytes: seq<Byte>): View {
    ViewOf(Sync(decode, Db(NO_ROWS, None), Event(|bytes|, 0, true, |bytes|, 0, bytes)))
  }

  lemma RebuiltIs(decode: Decoder, bytes: seq<Byte>)
    ensures var rec := Collect(decode, Lines(bytes), 0);
      Rebuilt(decode, bytes) == View(Apply(NO_ROWS, rec), rec.meta, |bytes|, |Lines(bytes)|)
  {
    assert bytes[0..] == bytes;
  }

  ghost predicate Agrees(decode: Decoder, db: Db, seen: seq<Byte>) {
    && db.session.Some? && ViewOf(db) == Rebuilt(decode, seen)
    && db.session.value.size <= |seen| && db.session.value.parserVersion == EDIT_PARSER_VERSION
  }

  /** The file only grew since `seen` was read, and a sync that reads finds it ending on a newline. */
  predicate Grown(db: Db, seen: seq<Byte>, e: Event) {
    && seen <= e.bytes && |seen| <= e.size <= e.readSize <= |e.bytes|
    && (DecideAction(db.session, e.size, e.mtime, e.full).Some? ==> Whole(e.bytes))
  }

  /** What has been read once the sync is over: a skipped sync reads nothing. */
  function Seen(db: Db, seen: seq<Byte>, e: Event): seq<Byte> {
    if DecideAction(db.session, e.size, e.mtime, e.full).None? then seen else e.bytes
  }

  lemma {:induction false} MetaOnlyFirst(decode: Decoder, lines: seq<seq<Byte>>, startSeq: nat)
    requires startSeq > 0
    ensures Collect(decode, lines, startSeq).meta == NO_META
  {
    if lines != [] {
      var init := lines[..|lines| - 1];
      MetaOnlyFirst(decode, init, startSeq);
      IngestKeepsMeta(Collect(decode, init, startSeq), startSeq + |init|, decode(lines[|lines| - 1]));
    }
  }

  lemma {:induction false} IngestCallsKeepMeta(rec: Records, seqNo: nat, calls: seq<ToolCall>)
    ensures IngestCalls(rec, seqNo, calls).meta == rec.meta
  {
    if calls != [] { IngestCallsKeepMeta(rec, seqNo, calls[..|calls| - 1]); }
  }

  lemma IngestKeepsMeta(rec: Records, seqNo: nat, line: Line)
    requires seqNo > 0
    ensures Ingest(rec, seqNo, line).meta == rec.meta
  {
    if line.Assistant? { IngestCallsKeepMeta(rec, seqNo, line.calls); }
  }

  /** Growing a file changes its rebuild by what one more batch adds. */
  lemma RebuiltGrows(decode: Decoder, seen: seq<Byte>, more: seq<Byte>)
    requires Whole(seen)
    ensures var rec := Collect(decode, Lines(more), |Lines(seen)|);
      var before, after := Rebuilt(decode, seen), Rebuilt(decode, seen + more);
      && after.tables == Apply(before.tables, rec)
      && after.meta == MergeMeta(rec.meta, before.meta)
      && after.byteOffset == before.byteOffset + |more| && after.lineCount == before.lineCount + |Lines(more)|
      && MergeMeta(after.meta, before.meta) == after.meta
  {
    var a, b := Lines(seen), Lines(more);
    LinesJoin(seen, more);
    RebuiltIs(decode, seen);
    RebuiltIs(decode, seen + more);
    if a == [] {
      assert seen == [];
      assert a + b == b && seen + more == more;
      ApplyNothing(NO_ROWS);
    } else {
      CollectJoin(decode, a, b, 0);
      ApplyJoin(NO_ROWS, Collect(decode, a, 0), Collect(decode, b, |a|));
      MetaOnlyFirst(decode, b, |a|);
    }
  }

  lemma ApplyNothing(t: Tables)
    ensures Apply(t, NOTHING) == t
  {
  }

  /** One sync keeps the store equal to a rebuild of what has been read; it skips only if there was nothing new. */
  lemma SyncKeepsAgreement(decode: Decoder, db: Db, seen: seq<Byte>, e: Event)
    requires Agrees(decode, db, seen) && Whole(seen) && Grown(db, seen, e)
    ensures Agrees(decode, Sync(decode, db, e), Seen(db, seen, e)) && Whole(Seen(db, seen, e))
    ensures DecideAction(db.session, e.size, e.mtime, e.full).None? ==> e.size == |seen|
  {
    var action := DecideAction(db.session, e.size, e.mtime, e.full);
    RebuiltIs(decode, seen);
    if action.Some? {
      var more := e.bytes[|seen|..];
      assert e.bytes == seen + more;
      RebuiltGrows(decode, seen, more);
      RebuiltIs(decode, e.bytes);
      assert Rest(e.bytes, 0) == e.bytes;
    }
  }

  lemma FirstSyncAgrees(decode: Decoder, db: Db, e: Event)
    requires db.session.None? && Grown(db, [], e)
    ensures Agrees(decode, Sync(decode, db, e), e.bytes) && Whole(e.bytes)
  {
    RebuiltIs(decode, e.bytes);
    assert Rest(e.bytes, 0) == e.bytes;
  }

  /** Syncs of a file that only grows, each ending on a newline. */
  predicate IsHistory(decode: Decoder, db: Db, seen: seq<Byte>, events: seq<Event>)
    decreases |events|
  {
    events == [] || (Grown(db, seen, events[0])
                     && IsHistory(decode, Sync(decode, db, events[0]), Seen(db, seen, events[0]), events[1..]))
  }

  function RunAll(decode: Decoder, db: Db, events: seq<Event>): Db
    decreases |events|
  {
    if events == [] then db else RunAll(decode, Sync(decode, db, events[0]), events[1..])
  }

  function LastRead(decode: Decoder, db: Db, seen: seq<Byte>, events: seq<Event>): seq<Byte>
    decreases |events|
  {
    if events == [] then seen
    else LastRead(decode, Sync(decode, db, events[0]), Seen(db, seen, events[0]), events[1..])
  }

  lemma {:induction false} HistoryAgrees(decode: Decoder, db: Db, seen: seq<Byte>, events: seq<Event>)
    requires Agrees(decode, db, seen) && Whole(seen) && IsHistory(decode, db, seen, events)
    ensures Agrees(decode, RunAll(decode, db, events), LastRead(decode, db, seen, events))
    decreases |events|
  {
    if events != [] {
      SyncKeepsAgreement(decode, db, seen, events[0]);
      HistoryAgrees(decode, Sync(decode, db, events[0]), Seen(db, seen, events[0]), events[1..]);
    }
  }

  /** However a growing file is cut into syncs, the rows, offset, line count and metadata are those of one rebuild. */
  lemma AnySplitEqualsRebuild(decode: Decoder, events: seq<Event>)
    requires events != [] && IsHistory(decode, Db(NO_ROWS, None), [], events)
    ensures RunAll(decode, Db(NO_ROWS, None), events).session.Some?
    ensures ViewOf(RunAll(decode, Db(NO_ROWS, None), events))
              == Rebuilt(decode, LastRead(decode, Db(NO_ROWS, None), [], events))
  {
    var db := Db(NO_ROWS, None);
    FirstSyncAgrees(decode, db, events[0]);
    HistoryAgrees(decode, Sync(decode, db, events[0]), events[0].bytes, events[1..]);
  }

  // ---- where a rebuild is not a fresh start ----

  predicate Forgets<T>(now: Option<T>, before: Option<T>) {
    now.None? && before.Some?
  }

  /** A stored field that the file no longer gives. */
  predicate Stale(now: Meta, before: Meta) {
    || Forgets(now.uuid, before.uuid) || Forgets(now.version, before.version) || Forgets(now.title, before.title)
    || Forgets(now.cwd, before.cwd) || Forgets(now.startedAt, before.startedAt)
  }

  /** A full rebuild over an existing row restores the tables, but the metadata only if no stored field is stale. */
  lemma RebuildRestoresIff(decode: Decoder, db: Db, e: Event)
    requires db.session.Some? && DecideAction(db.session, e.size, e.mtime, e.full) == Some(Action(true, 0, 0))
    ensures Sync(decode, db, e).session.Some? && Sync(decode, db, e).tables == Rebuilt(decode, e.bytes).tables
    ensures (ViewOf(Sync(decode, db, e)) == Rebuilt(decode, e.bytes)) <==>
            !Stale(Rebuilt(decode, e.bytes).meta, db.session.value.meta)
  {
    RebuiltIs(decode, e.bytes);
    assert Rest(e.bytes, 0) == e.bytes;
  }

  /** A session whose log was emptied keeps its old title. */
  lemma StaleTitleSurvives(decode: Decoder)
    ensures var row := SessionRow(NO_META.(title := Some("old")), 1, 5, 5, 1, EDIT_PARSER_VERSION);
      var db := Sync(decode, Db(NO_ROWS, Some(row)), Event(0, 2, false, 0, 2, []));
      && db.session.Some? && db.session.value.meta.title == Some("old")
      && Rebuilt(decode, []).meta.title == None
  {
    RebuiltIs(decode, []);
    assert Lines([]) == [];
  }
}
