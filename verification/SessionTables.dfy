/** What the tables hold after a rebuild, read straight off the lines of the log. */
module SessionTables {
  import opened Basics
  import opened SessionSync

  // ---- the lines ----

  function CallsOf(line: Line): seq<ToolCall> {
    if line.Assistant? then line.calls else []
  }

  function VerdictOf(line: Line): Option<(string, Verdict)> {
    if line.ToolResult? && line.edit.Some? then Some((line.callId, line.edit.value)) else None
  }

  /** Call `j` of line `i` has this identifier. */
  predicate CallAt(cs: seq<seq<ToolCall>>, i: int, j: int, id: string) {
    0 <= i < |cs| && 0 <= j < |cs[i]| && cs[i][j].callId == id
  }

  /** It is an edit call. */
  predicate EditAt(cs: seq<seq<ToolCall>>, i: int, j: int, id: string) {
    CallAt(cs, i, j, id) && cs[i][j].edit.Some?
  }

  /** It is an edit call with more than `x` sections. */
  predicate SectionAt(cs: seq<seq<ToolCall>>, i: int, j: int, id: string, x: int) {
    EditAt(cs, i, j, id) && 0 <= x < |cs[i][j].edit.value.sections|
  }

  predicate VerdictAt(vs: seq<Option<(string, Verdict)>>, i: int, id: string) {
    0 <= i < |vs| && vs[i].Some? && vs[i].value.0 == id
  }

  predicate Before(i: int, j: int, k: int, l: int) { i < k || (i == k && j < l) }

  ghost predicate LastInLine(cs: seq<seq<ToolCall>>, i: int, j: int, id: string) {
    CallAt(cs, i, j, id) && forall l :: CallAt(cs, i, l, id) ==> l <= j
  }

  ghost predicate LastEdit(cs: seq<seq<ToolCall>>, i: int, j: int, id: string) {
    EditAt(cs, i, j, id) && forall k, l :: EditAt(cs, k, l, id) ==> !Before(i, j, k, l)
  }

  ghost predicate LastSection(cs: seq<seq<ToolCall>>, i: int, j: int, id: string, x: int) {
    SectionAt(cs, i, j, id, x) && forall k, l :: SectionAt(cs, k, l, id, x) ==> !Before(i, j, k, l)
  }

  ghost predicate LastVerdict(vs: seq<Option<(string, Verdict)>>, i: int, id: string) {
    VerdictAt(vs, i, id) && forall k :: VerdictAt(vs, k, id) ==> k <= i
  }

  // ---- what the tables say ----

  /** A row for every call of a line; of several with one identifier the last counts. */
  ghost predicate ToolCallsSay(t: map<CallKey, string>, cs: seq<seq<ToolCall>>) {
    && (forall key :: key in t <==> exists j :: CallAt(cs, key.seqNo, j, key.callId))
    && forall i, j, id :: LastInLine(cs, i, j, id) ==> CallKey(id, i) in t && t[CallKey(id, i)] == cs[i][j].body
  }

  /** The call half of a row is the last edit call, or zeros if there was none. */
  ghost predicate CallHalves(t: map<string, EditRow>, cs: seq<seq<ToolCall>>) {
    && (forall id, i, j :: LastEdit(cs, i, j, id) ==>
          var edit := cs[i][j].edit.value;
          id in t && t[id].call == EditCall(i, edit.timestamp, edit.rawLength))
    && forall id :: id in t && (forall i, j :: !EditAt(cs, i, j, id)) ==> t[id].call == EditCall(0, 0, 0)
  }

  /** The result half is the last verdict, or unset if there was none. */
  ghost predicate ResultHalves(t: map<string, EditRow>, vs: seq<Option<(string, Verdict)>>) {
    && (forall id, i :: LastVerdict(vs, i, id) ==>
          var v := vs[i].value.1;
          id in t && t[id].success == Some(v.success) && t[id].warnings == v.warnings)
    && forall id :: id in t && (forall i :: !VerdictAt(vs, i, id)) ==> t[id].success == None && t[id].warnings == "[]"
  }

  ghost predicate EditRowsSay(t: map<string, EditRow>, cs: seq<seq<ToolCall>>, vs: seq<Option<(string, Verdict)>>) {
    && (forall id :: id in t <==> (exists i, j :: EditAt(cs, i, j, id)) || exists i :: VerdictAt(vs, i, id))
    && CallHalves(t, cs) && ResultHalves(t, vs)
  }

  /** Section `x` is that of the last edit call that has one. */
  ghost predicate SectionsSay(t: map<SectionKey, SectionRow>, cs: seq<seq<ToolCall>>) {
    && (forall key :: key in t <==> exists i, j :: SectionAt(cs, i, j, key.callId, key.index))
    && forall i, j, id, x :: LastSection(cs, i, j, id, x) ==>
         SectionKey(id, x) in t && t[SectionKey(id, x)] == SectionRow(i, cs[i][j].edit.value.sections[x])
  }

  predicate ResultLine(ls: seq<Line>, key: CallKey, body: string) {
    key.seqNo < |ls| && ls[key.seqNo].ToolResult? && ls[key.seqNo].callId == key.callId && ls[key.seqNo].body == body
  }

  predicate AssistantLine(ls: seq<Line>, i: int, text: string) {
    0 <= i < |ls| && ls[i].Assistant? && ls[i].text == Some(text)
  }

  predicate UserLine(ls: seq<Line>, i: int, text: string) {
    0 <= i < |ls| && ls[i].User? && ls[i].text == Some(text)
  }

  ghost predicate ResultsSay(t: map<CallKey, string>, ls: seq<Line>) {
    forall key, body :: key in t && t[key] == body <==> ResultLine(ls, key, body)
  }

  ghost predicate AnswersSay(t: map<nat, string>, ls: seq<Line>) {
    forall i, text :: i in t && t[i] == text <==> AssistantLine(ls, i, text)
  }

  ghost predicate PromptsSay(t: map<nat, string>, ls: seq<Line>) {
    forall i, text :: i in t && t[i] == text <==> UserLine(ls, i, text)
  }

  /** Every result and message line has its row, and there are no other rows. */
  ghost predicate LinesSay(t: Tables, ls: seq<Line>) {
    ResultsSay(t.toolResults, ls) && AnswersSay(t.assistantMsgs, ls) && PromptsSay(t.userMsgs, ls)
  }

  // ---- one call more ----

  function Grow(cs: seq<seq<ToolCall>>, c: ToolCall): seq<seq<ToolCall>>
    requires cs != []
  {
    cs[|cs| - 1 := cs[|cs| - 1] + [c]]
  }

  lemma GrowAt(cs: seq<seq<ToolCall>>, c: ToolCall)
    requires cs != []
    ensures var n, m := |cs| - 1, |cs[|cs| - 1]|;
      && (forall i, j, id :: CallAt(Grow(cs, c), i, j, id) <==>
            CallAt(cs, i, j, id) || (i == n && j == m && id == c.callId))
      && (forall i, j, id :: CallAt(cs, i, j, id) ==> Grow(cs, c)[i][j] == cs[i][j] && !Before(n, m, i, j))
      && Grow(cs, c)[n][m] == c
  {
    var n, m, more := |cs| - 1, |cs[|cs| - 1]|, Grow(cs, c);
    assert more[n] == cs[n] + [c] && forall i :: 0 <= i < n ==> more[i] == cs[i];
  }

  lemma ToolCallRow(t: map<CallKey, string>, cs: seq<seq<ToolCall>>, c: ToolCall)
    requires cs != [] && ToolCallsSay(t, cs)
    ensures ToolCallsSay(t[CallKey(c.callId, |cs| - 1) := c.body], Grow(cs, c))
  {
    var n, m, more := |cs| - 1, |cs[|cs| - 1]|, Grow(cs, c);
    var t' := t[CallKey(c.callId, n) := c.body];
    GrowAt(cs, c);
    forall key ensures key in t' <==> exists j :: CallAt(more, key.seqNo, j, key.callId) {
      if key == CallKey(c.callId, n) { assert CallAt(more, n, m, c.callId); }
      if key in t {
        var j :| CallAt(cs, key.seqNo, j, key.callId);
        assert CallAt(more, key.seqNo, j, key.callId);
      }
      if j :| CallAt(more, key.seqNo, j, key.callId) {
        assert key != CallKey(c.callId, n) ==> CallAt(cs, key.seqNo, j, key.callId);
      }
    }
    forall i, j, id | LastInLine(more, i, j, id) ensures CallKey(id, i) in t' && t'[CallKey(id, i)] == more[i][j].body {
      if i == n && id == c.callId {
        assert CallAt(more, i, m, id);
      } else {
        forall l | CallAt(cs, i, l, id) ensures l <= j { assert CallAt(more, i, l, id); }
        assert LastInLine(cs, i, j, id);
      }
    }
  }

  /** The row of an edit call, over a table that speaks of the calls before. */
  lemma NewEditCall(t: map<string, EditRow>, cs: seq<seq<ToolCall>>, vs: seq<Option<(string, Verdict)>>, c: ToolCall)
    requires cs != [] && c.edit.Some? && EditRowsSay(t, cs, vs)
    ensures EditRowsSay(UpsertCall(t, c.callId, EditCall(|cs| - 1, c.edit.value.timestamp, c.edit.value.rawLength)),
                        Grow(cs, c), vs)
  {
    var t' := UpsertCall(t, c.callId, EditCall(|cs| - 1, c.edit.value.timestamp, c.edit.value.rawLength));
    NewEditAt(cs, c);
    NewEditIds(t, cs, vs, c, t');
    NewCallHalf(t, cs, c, t');
    forall id | id in t' && (forall i :: !VerdictAt(vs, i, id))
      ensures t'[id].success == None && t'[id].warnings == "[]"
    {
    }
  }

  lemma NewEditAt(cs: seq<seq<ToolCall>>, c: ToolCall)
    requires cs != [] && c.edit.Some?
    ensures var n, m, more := |cs| - 1, |cs[|cs| - 1]|, Grow(cs, c);
      && EditAt(more, n, m, c.callId) && more[n][m] == c
      && (forall i, j, id :: EditAt(cs, i, j, id) ==>
            EditAt(more, i, j, id) && more[i][j] == cs[i][j] && !Before(n, m, i, j))
      && forall i, j, id :: EditAt(more, i, j, id) ==> EditAt(cs, i, j, id) || (i == n && j == m && id == c.callId)
  {
    GrowAt(cs, c);
  }

  lemma NewEditIds(t: map<string, EditRow>, cs: seq<seq<ToolCall>>, vs: seq<Option<(string, Verdict)>>, c: ToolCall,
                   t': map<string, EditRow>)
    requires cs != [] && c.edit.Some? && EditRowsSay(t, cs, vs) && t'.Keys == t.Keys + {c.callId}
    ensures forall id :: id in t' <==>
              (exists i, j :: EditAt(Grow(cs, c), i, j, id)) || exists i :: VerdictAt(vs, i, id)
  {
    var more := Grow(cs, c);
    NewEditAt(cs, c);
    forall id ensures id in t' <==> (exists i, j :: EditAt(more, i, j, id)) || exists i :: VerdictAt(vs, i, id) {
      if i, j :| EditAt(cs, i, j, id) { assert EditAt(more, i, j, id); }
      if i, j :| EditAt(more, i, j, id) { assert id != c.callId ==> EditAt(cs, i, j, id); }
    }
  }

  lemma NewCallHalf(t: map<string, EditRow>, cs: seq<seq<ToolCall>>, c: ToolCall, t': map<string, EditRow>)
    requires cs != [] && c.edit.Some? && CallHalves(t, cs)
    requires t' == UpsertCall(t, c.callId, EditCall(|cs| - 1, c.edit.value.timestamp, c.edit.value.rawLength))
    ensures CallHalves(t', Grow(cs, c))
  {
    var n, m, more := |cs| - 1, |cs[|cs| - 1]|, Grow(cs, c);
    NewEditAt(cs, c);
    forall id, i, j | LastEdit(more, i, j, id)
      ensures id in t' && t'[id].call == EditCall(i, more[i][j].edit.value.timestamp, more[i][j].edit.value.rawLength)
    {
      if id == c.callId { assert !Before(i, j, n, m); } else { assert LastEdit(cs, i, j, id); }
    }
    forall id | id in t' && (forall i, j :: !EditAt(more, i, j, id)) ensures t'[id].call == EditCall(0, 0, 0) {
      forall i, j ensures !EditAt(cs, i, j, id) { assert !EditAt(more, i, j, id); }
    }
  }

  function Put(t: map<SectionKey, SectionRow>, id: string, n: nat, sections: seq<string>): map<SectionKey, SectionRow> {
    Replace(t, SectionRows(id, n, sections))
  }

  lemma {:induction false} PutFacts(t: map<SectionKey, SectionRow>, id: string, n: nat, sections: seq<string>)
    ensures var r := Put(t, id, n, sections);
      && (forall key :: key in r <==> key in t || (key.callId == id && key.index < |sections|))
      && forall key :: key in r ==>
           r[key] == if key.callId == id && key.index < |sections| then SectionRow(n, sections[key.index]) else t[key]
  {
    if sections != [] {
      var k := |sections| - 1;
      PutFacts(t, id, n, sections[..k]);
      assert SectionRows(id, n, sections)[..k] == SectionRows(id, n, sections[..k]);
      assert SectionRows(id, n, sections)[k] == (SectionKey(id, k), SectionRow(n, sections[k]));
    }
  }

  lemma NewSectionKeys(t: map<SectionKey, SectionRow>, cs: seq<seq<ToolCall>>, c: ToolCall, key: SectionKey)
    requires cs != [] && c.edit.Some? && SectionsSay(t, cs)
    ensures key in Put(t, c.callId, |cs| - 1, c.edit.value.sections) <==>
            exists i, j :: SectionAt(Grow(cs, c), i, j, key.callId, key.index)
  {
    var n, m, more, sections := |cs| - 1, |cs[|cs| - 1]|, Grow(cs, c), c.edit.value.sections;
    GrowAt(cs, c);
    PutFacts(t, c.callId, n, sections);
    if key.callId == c.callId && key.index < |sections| { assert SectionAt(more, n, m, key.callId, key.index); }
    if key in t {
      var i, j :| SectionAt(cs, i, j, key.callId, key.index);
      assert SectionAt(more, i, j, key.callId, key.index);
    }
    if i, j :| SectionAt(more, i, j, key.callId, key.index) {
      assert SectionAt(cs, i, j, key.callId, key.index) || (i == n && j == m);
    }
  }

  lemma NewSectionRow(t: map<SectionKey, SectionRow>, cs: seq<seq<ToolCall>>, c: ToolCall, i: int, j: int, id: string,
                      x: nat)
    requires cs != [] && c.edit.Some? && SectionsSay(t, cs) && LastSection(Grow(cs, c), i, j, id, x)
    ensures var t' := Put(t, c.callId, |cs| - 1, c.edit.value.sections);
      && SectionKey(id, x) in t'
      && t'[SectionKey(id, x)] == SectionRow(i, Grow(cs, c)[i][j].edit.value.sections[x])
  {
    var n, m, more, sections := |cs| - 1, |cs[|cs| - 1]|, Grow(cs, c), c.edit.value.sections;
    GrowAt(cs, c);
    PutFacts(t, c.callId, n, sections);
    if id == c.callId && x < |sections| {
      assert SectionAt(more, n, m, id, x) && !Before(i, j, n, m);
    } else {
      forall k, l | SectionAt(cs, k, l, id, x) ensures !Before(i, j, k, l) { assert SectionAt(more, k, l, id, x); }
      assert LastSection(cs, i, j, id, x);
    }
  }

  lemma NewSections(t: map<SectionKey, SectionRow>, cs: seq<seq<ToolCall>>, c: ToolCall)
    requires cs != [] && c.edit.Some? && SectionsSay(t, cs)
    ensures SectionsSay(Put(t, c.callId, |cs| - 1, c.edit.value.sections), Grow(cs, c))
  {
    var more, t' := Grow(cs, c), Put(t, c.callId, |cs| - 1, c.edit.value.sections);
    forall key ensures key in t' <==> exists i, j :: SectionAt(more, i, j, key.callId, key.index) {
      NewSectionKeys(t, cs, c, key);
    }
    forall i, j, id, x | LastSection(more, i, j, id, x)
      ensures SectionKey(id, x) in t' && t'[SectionKey(id, x)] == SectionRow(i, more[i][j].edit.value.sections[x])
    {
      NewSectionRow(t, cs, c, i, j, id, x);
    }
  }

  /** A call that is no edit leaves the edit tables alone. */
  lemma NoEdit(cs: seq<seq<ToolCall>>, c: ToolCall)
    requires cs != [] && c.edit.None?
    ensures forall i, j, id :: EditAt(Grow(cs, c), i, j, id) ==> EditAt(cs, i, j, id)
    ensures forall i, j, id :: EditAt(cs, i, j, id) ==> EditAt(Grow(cs, c), i, j, id) && Grow(cs, c)[i][j] == cs[i][j]
  {
    GrowAt(cs, c);
  }

  lemma SameEdits(t: Tables, cs: seq<seq<ToolCall>>, more: seq<seq<ToolCall>>, vs: seq<Option<(string, Verdict)>>)
    requires forall i, j, id :: EditAt(more, i, j, id) ==> EditAt(cs, i, j, id)
    requires forall i, j, id :: EditAt(cs, i, j, id) ==> EditAt(more, i, j, id) && more[i][j] == cs[i][j]
    requires EditRowsSay(t.editCalls, cs, vs) && SectionsSay(t.editSections, cs)
    ensures EditRowsSay(t.editCalls, more, vs) && SectionsSay(t.editSections, more)
  {
    forall id, i, j | LastEdit(more, i, j, id) ensures LastEdit(cs, i, j, id) {}
    forall i, j, id, x ensures SectionAt(more, i, j, id, x) <==> SectionAt(cs, i, j, id, x) {}
    forall i, j, id, x | LastSection(more, i, j, id, x) ensures LastSection(cs, i, j, id, x) {
      forall k, l | SectionAt(cs, k, l, id, x) ensures !Before(i, j, k, l) { assert SectionAt(more, k, l, id, x); }
    }
  }

  // ---- one line more ----

  function Grid(ls: seq<Line>): seq<seq<ToolCall>> {
    seq(|ls|, i requires 0 <= i < |ls| => CallsOf(ls[i]))
  }

  function Verdicts(ls: seq<Line>): seq<Option<(string, Verdict)>> {
    seq(|ls|, i requires 0 <= i < |ls| => VerdictOf(ls[i]))
  }

  ghost predicate CallTablesSay(t: Tables, cs: seq<seq<ToolCall>>, vs: seq<Option<(string, Verdict)>>) {
    ToolCallsSay(t.toolCalls, cs) && EditRowsSay(t.editCalls, cs, vs) && SectionsSay(t.editSections, cs)
  }

  /** Everything that the tables hold. */
  ghost predicate TablesSay(t: Tables, ls: seq<Line>) {
    CallTablesSay(t, Grid(ls), Verdicts(ls)) && LinesSay(t, ls)
  }

  lemma EmptyRow(t: Tables, cs: seq<seq<ToolCall>>, vs: seq<Option<(string, Verdict)>>)
    requires CallTablesSay(t, cs, vs)
    ensures CallTablesSay(t, cs + [[]], vs)
  {
    var more := cs + [[]];
    forall i, j, id ensures CallAt(more, i, j, id) <==> CallAt(cs, i, j, id) {}
    forall i, j, id | LastInLine(more, i, j, id) ensures LastInLine(cs, i, j, id) {
      forall l | CallAt(cs, i, l, id) ensures l <= j { assert CallAt(more, i, l, id); }
    }
    forall key ensures key in t.toolCalls <==> exists j :: CallAt(more, key.seqNo, j, key.callId) {
      if j :| CallAt(cs, key.seqNo, j, key.callId) { assert CallAt(more, key.seqNo, j, key.callId); }
      if j :| CallAt(more, key.seqNo, j, key.callId) { assert CallAt(cs, key.seqNo, j, key.callId); }
    }
    SameEdits(t, cs, more, vs);
  }

  lemma NoVerdict(t: map<string, EditRow>, cs: seq<seq<ToolCall>>, vs: seq<Option<(string, Verdict)>>)
    requires EditRowsSay(t, cs, vs)
    ensures EditRowsSay(t, cs, vs + [None])
  {
    var more := vs + [None];
    forall i, id ensures VerdictAt(more, i, id) <==> VerdictAt(vs, i, id) {}
    forall id, i | LastVerdict(more, i, id) ensures LastVerdict(vs, i, id) {
      forall k | VerdictAt(vs, k, id) ensures k <= i { assert VerdictAt(more, k, id); }
    }
    forall id | id in t && forall i :: !VerdictAt(more, i, id) ensures t[id].success == None && t[id].warnings == "[]" {
      forall i ensures !VerdictAt(vs, i, id) { assert !VerdictAt(more, i, id); }
    }
  }

  lemma NewVerdict(t: map<string, EditRow>, cs: seq<seq<ToolCall>>, vs: seq<Option<(string, Verdict)>>, id: string,
                   v: Verdict)
    requires EditRowsSay(t, cs, vs)
    ensures EditRowsSay(UpsertResult(t, id, v), cs, vs + [Some((id, v))])
  {
    var n, more, t' := |vs|, vs + [Some((id, v))], UpsertResult(t, id, v);
    assert VerdictAt(more, n, id);
    forall i, d ensures VerdictAt(more, i, d) <==> VerdictAt(vs, i, d) || (i == n && d == id) {}
    forall d, i | LastVerdict(more, i, d)
      ensures d in t' && t'[d].success == Some(more[i].value.1.success) && t'[d].warnings == more[i].value.1.warnings
    {
      if d != id {
        forall k | VerdictAt(vs, k, d) ensures k <= i { assert VerdictAt(more, k, d); }
        assert LastVerdict(vs, i, d);
      }
    }
    forall d | d in t' && forall i :: !VerdictAt(more, i, d) ensures t'[d].success == None && t'[d].warnings == "[]" {
      forall i ensures !VerdictAt(vs, i, d) { assert !VerdictAt(more, i, d); }
    }
    forall d | d in t' && forall i, j :: !EditAt(cs, i, j, d) ensures t'[d].call == EditCall(0, 0, 0) {}
  }

  // ---- what one line does to the tables ----

  lemma ReplaceSnoc<K, V>(t: map<K, V>, rows: seq<(K, V)>, row: (K, V))
    ensures Replace(t, rows + [row]) == Replace(t, rows)[row.0 := row.1]
  {
    assert (rows + [row])[..|rows|] == rows;
  }

  lemma UpsertCallSnoc(t: map<string, EditRow>, rows: seq<(string, EditCall)>, row: (string, EditCall))
    ensures UpsertCalls(t, rows + [row]) == UpsertCall(UpsertCalls(t, rows), row.0, row.1)
  {
    assert (rows + [row])[..|rows|] == rows;
  }

  lemma {:induction false} CallsKeepOthers(n: nat, calls: seq<ToolCall>)
    ensures var rec := IngestCalls(NOTHING, n, calls);
      && rec.editResults == [] && rec.toolResults == [] && rec.assistantMsgs == [] && rec.userMsgs == []
      && rec.meta == NO_META
  {
    if calls != [] { CallsKeepOthers(n, calls[..|calls| - 1]); }
  }

  /** The call tables after one more call of a line. */
  lemma CallGrows(t: Tables, n: nat, rec: Records, c: ToolCall, cs: seq<seq<ToolCall>>,
                  vs: seq<Option<(string, Verdict)>>)
    requires rec.editResults == [] && |cs| == n + 1 && CallTablesSay(Apply(t, rec), cs, vs)
    ensures CallTablesSay(Apply(t, IngestCall(rec, n, c)), Grow(cs, c), vs)
  {
    var before, after := Apply(t, rec), Apply(t, IngestCall(rec, n, c));
    ReplaceSnoc(t.toolCalls, rec.toolCalls, (CallKey(c.callId, n), c.body));
    ToolCallRow(before.toolCalls, cs, c);
    if c.edit.Some? {
      var edit := c.edit.value;
      UpsertCallSnoc(t.editCalls, rec.editCalls, (c.callId, EditCall(n, edit.timestamp, edit.rawLength)));
      ReplaceJoin(t.editSections, rec.editSections, SectionRows(c.callId, n, edit.sections));
      NewEditCall(before.editCalls, cs, vs, c);
      NewSections(before.editSections, cs, c);
    } else {
      NoEdit(cs, c);
      SameEdits(before, cs, Grow(cs, c), vs);
    }
  }

  lemma {:induction false} CallsGrow(t: Tables, cs: seq<seq<ToolCall>>, vs: seq<Option<(string, Verdict)>>,
                                     calls: seq<ToolCall>)
    requires CallTablesSay(t, cs, vs)
    ensures CallTablesSay(Apply(t, IngestCalls(NOTHING, |cs|, calls)), cs + [calls], vs)
  {
    if calls == [] {
      ApplyNothing(t);
      EmptyRow(t, cs, vs);
    } else {
      var init, last := calls[..|calls| - 1], calls[|calls| - 1];
      CallsGrow(t, cs, vs, init);
      OneCallMore(t, cs, vs, calls, init, last);
    }
  }

  lemma OneCallMore(t: Tables, cs: seq<seq<ToolCall>>, vs: seq<Option<(string, Verdict)>>, calls: seq<ToolCall>,
                    init: seq<ToolCall>, last: ToolCall)
    requires calls != [] && init == calls[..|calls| - 1] && last == calls[|calls| - 1]
    requires CallTablesSay(Apply(t, IngestCalls(NOTHING, |cs|, init)), cs + [init], vs)
    ensures CallTablesSay(Apply(t, IngestCalls(NOTHING, |cs|, calls)), cs + [calls], vs)
  {
    var n := |cs|;
    var rec := IngestCalls(NOTHING, n, init);
    CallsKeepOthers(n, init);
    CallGrows(t, n, rec, last, cs + [init], vs);
    LastCall(n, calls, init, last);
    GrownRow(cs, init, last, calls);
  }

  lemma LastCall(n: nat, calls: seq<ToolCall>, init: seq<ToolCall>, last: ToolCall)
    requires calls != [] && init == calls[..|calls| - 1] && last == calls[|calls| - 1]
    ensures calls == init + [last]
    ensures IngestCalls(NOTHING, n, calls) == IngestCall(IngestCalls(NOTHING, n, init), n, last)
  {
  }

  lemma GrownRow(cs: seq<seq<ToolCall>>, init: seq<ToolCall>, last: ToolCall, calls: seq<ToolCall>)
    requires calls == init + [last]
    ensures Grow(cs + [init], last) == cs + [calls]
  {
  }

  lemma GridSnoc(ls: seq<Line>, line: Line)
    ensures Grid(ls + [line]) == Grid(ls) + [CallsOf(line)] && Verdicts(ls + [line]) == Verdicts(ls) + [VerdictOf(line)]
  {
  }

  lemma LineCallTables(t: Tables, ls: seq<Line>, line: Line)
    requires TablesSay(t, ls)
    ensures CallTablesSay(Apply(t, Ingest(NOTHING, |ls|, line)), Grid(ls + [line]), Verdicts(ls + [line]))
  {
    var n, cs, vs := |ls|, Grid(ls), Verdicts(ls);
    GridSnoc(ls, line);
    CallsGrow(t, cs, vs, CallsOf(line));
    CallsKeepOthers(n, CallsOf(line));
    var mid := Apply(t, IngestCalls(NOTHING, n, CallsOf(line)));
    if VerdictOf(line).Some? {
      NewVerdict(mid.editCalls, cs + [CallsOf(line)], vs, line.callId, line.edit.value);
    } else {
      NoVerdict(mid.editCalls, cs + [CallsOf(line)], vs);
    }
    LineEffect(t, n, line);
  }

  /** What the line writes to the call tables: its calls, and its verdict. */
  lemma LineEffect(t: Tables, n: nat, line: Line)
    ensures var after, mid := Apply(t, Ingest(NOTHING, n, line)), Apply(t, IngestCalls(NOTHING, n, CallsOf(line)));
      && after.toolCalls == mid.toolCalls && after.editSections == mid.editSections
      && after.editCalls == if VerdictOf(line).Some? then UpsertResult(mid.editCalls, line.callId, line.edit.value)
                            else mid.editCalls
  {
    var calls := IngestCalls(NOTHING, n, CallsOf(line));
    CallsKeepOthers(n, CallsOf(line));
    LineCollects(n, line);
    SameCallRows(t, Ingest(NOTHING, n, line), calls);
    if VerdictOf(line).Some? {
      OneResult(t.editCalls, line.callId, line.edit.value);
    }
  }

  lemma LineCollects(n: nat, line: Line)
    ensures var all, calls := Ingest(NOTHING, n, line), IngestCalls(NOTHING, n, CallsOf(line));
      && all.toolCalls == calls.toolCalls && all.editCalls == calls.editCalls && all.editSections == calls.editSections
      && (VerdictOf(line).Some? ==> all.editResults == [] + [(line.callId, line.edit.value)])
      && (VerdictOf(line).None? ==> all.editResults == calls.editResults)
      && (!line.Assistant? ==> calls == NOTHING)
  {
  }

  lemma SameCallRows(t: Tables, a: Records, b: Records)
    requires a.toolCalls == b.toolCalls && a.editCalls == b.editCalls && a.editSections == b.editSections
    ensures Apply(t, a).toolCalls == Apply(t, b).toolCalls && Apply(t, a).editSections == Apply(t, b).editSections
    ensures a.editResults == b.editResults ==> Apply(t, a).editCalls == Apply(t, b).editCalls
  {
  }

  lemma OneResult(t: map<string, EditRow>, id: string, v: Verdict)
    ensures UpsertResults(t, [] + [(id, v)]) == UpsertResult(t, id, v)
  {
    assert [(id, v)][..0] == [];
  }

  lemma ResultRow(t: map<CallKey, string>, ls: seq<Line>, line: Line)
    requires ResultsSay(t, ls)
    ensures ResultsSay(if line.ToolResult? then t[CallKey(line.callId, |ls|) := line.body] else t, ls + [line])
  {
    var after := if line.ToolResult? then t[CallKey(line.callId, |ls|) := line.body] else t;
    forall key, body ensures key in after && after[key] == body <==> ResultLine(ls + [line], key, body) {
      assert key in t && t[key] == body <==> ResultLine(ls, key, body);
      if key in t { assert ResultLine(ls, key, t[key]); }
    }
  }

  lemma AnswerRow(t: map<nat, string>, ls: seq<Line>, line: Line)
    requires AnswersSay(t, ls)
    ensures AnswersSay(if line.Assistant? && line.text.Some? then t[|ls| := line.text.value] else t, ls + [line])
  {
    var after := if line.Assistant? && line.text.Some? then t[|ls| := line.text.value] else t;
    forall i, text ensures i in after && after[i] == text <==> AssistantLine(ls + [line], i, text) {
      assert i in t && t[i] == text <==> AssistantLine(ls, i, text);
      if i in t { assert AssistantLine(ls, i, t[i]); }
    }
  }

  lemma PromptRow(t: map<nat, string>, ls: seq<Line>, line: Line)
    requires PromptsSay(t, ls)
    ensures PromptsSay(if line.User? && line.text.Some? then t[|ls| := line.text.value] else t, ls + [line])
  {
    var after := if line.User? && line.text.Some? then t[|ls| := line.text.value] else t;
    forall i, text ensures i in after && after[i] == text <==> UserLine(ls + [line], i, text) {
      assert i in t && t[i] == text <==> UserLine(ls, i, text);
      if i in t { assert UserLine(ls, i, t[i]); }
    }
  }

  lemma LineRows(t: Tables, ls: seq<Line>, line: Line)
    requires LinesSay(t, ls)
    ensures LinesSay(Apply(t, Ingest(NOTHING, |ls|, line)), ls + [line])
  {
    LineOtherRows(t, |ls|, line);
    ResultRow(t.toolResults, ls, line);
    AnswerRow(t.assistantMsgs, ls, line);
    PromptRow(t.userMsgs, ls, line);
  }

  lemma LineResults(t: Tables, n: nat, line: Line)
    ensures Apply(t, Ingest(NOTHING, n, line)).toolResults ==
      if line.ToolResult? then t.toolResults[CallKey(line.callId, n) := line.body] else t.toolResults
  {
    CallsKeepOthers(n, CallsOf(line));
    if line.ToolResult? { OneRow(t.toolResults, (CallKey(line.callId, n), line.body)); }
  }

  /** The answer a line contributes, if any. */
  lemma AnswersOfLine(n: nat, line: Line)
    ensures Ingest(NOTHING, n, line).assistantMsgs ==
      if line.Assistant? && line.text.Some? then [] + [(n, line.text.value)] else []
  {
    CallsKeepOthers(n, CallsOf(line));
  }

  lemma LineAnswers(t: Tables, n: nat, line: Line)
    ensures Apply(t, Ingest(NOTHING, n, line)).assistantMsgs ==
      if line.Assistant? && line.text.Some? then t.assistantMsgs[n := line.text.value] else t.assistantMsgs
  {
    AnswersOfLine(n, line);
    if line.Assistant? && line.text.Some? { OneRow(t.assistantMsgs, (n, line.text.value)); }
  }

  lemma LinePrompts(t: Tables, n: nat, line: Line)
    ensures Apply(t, Ingest(NOTHING, n, line)).userMsgs ==
      if line.User? && line.text.Some? then t.userMsgs[n := line.text.value] else t.userMsgs
  {
    CallsKeepOthers(n, CallsOf(line));
    if line.User? && line.text.Some? { OneRow(t.userMsgs, (n, line.text.value)); }
  }

  lemma LineOtherRows(t: Tables, n: nat, line: Line)
    ensures var after := Apply(t, Ingest(NOTHING, n, line));
      && after.toolResults == (if line.ToolResult? then t.toolResults[CallKey(line.callId, n) := line.body]
                               else t.toolResults)
      && after.assistantMsgs == (if line.Assistant? && line.text.Some? then t.assistantMsgs[n := line.text.value]
                                 else t.assistantMsgs)
      && after.userMsgs == if line.User? && line.text.Some? then t.userMsgs[n := line.text.value] else t.userMsgs
  {
    LineResults(t, n, line);
    LineAnswers(t, n, line);
    LinePrompts(t, n, line);
  }

  lemma OneRow<K, V>(t: map<K, V>, row: (K, V))
    ensures Replace(t, [] + [row]) == t[row.0 := row.1]
  {
    assert [row][..0] == [];
  }

  // ---- a rebuild ----

  function Decoded(decode: Decoder, lines: seq<seq<Byte>>): seq<Line> {
    seq(|lines|, i requires 0 <= i < |lines| => decode(lines[i]))
  }

  lemma OneBatchMore(rec: Records, n: nat, line: Line)
    requires n == 0 ==> rec == NOTHING
    ensures Apply(NO_ROWS, Ingest(rec, n, line)) == Apply(Apply(NO_ROWS, rec), Ingest(NOTHING, n, line))
  {
    if n == 0 {
      ApplyNothing(NO_ROWS);
    } else {
      AppendNothing(rec);
      IngestAppends(rec, NOTHING, n, line);
      ApplyJoin(NO_ROWS, rec, Ingest(NOTHING, n, line));
    }
  }

  lemma {:induction false} CollectedSay(decode: Decoder, lines: seq<seq<Byte>>)
    ensures TablesSay(Apply(NO_ROWS, Collect(decode, lines, 0)), Decoded(decode, lines))
  {
    if lines == [] {
      ApplyNothing(NO_ROWS);
    } else {
      var init, last := lines[..|lines| - 1], lines[|lines| - 1];
      CollectedSay(decode, init);
      CollectedSnoc(decode, init, last, Collect(decode, init, 0));
      assert init + [last] == lines;
    }
  }

  lemma CollectedSnoc(decode: Decoder, init: seq<seq<Byte>>, last: seq<Byte>, rec: Records)
    requires rec == Collect(decode, init, 0) && TablesSay(Apply(NO_ROWS, rec), Decoded(decode, init))
    ensures TablesSay(Apply(NO_ROWS, Collect(decode, init + [last], 0)), Decoded(decode, init + [last]))
  {
    CollectSnoc(decode, init, last, 0);
    DecodedSnoc(decode, init, last);
    OneLineMore(rec, Decoded(decode, init), decode(last));
  }

  lemma DecodedSnoc(decode: Decoder, init: seq<seq<Byte>>, last: seq<Byte>)
    ensures Decoded(decode, init + [last]) == Decoded(decode, init) + [decode(last)]
  {
  }

  lemma OneLineMore(rec: Records, ls: seq<Line>, line: Line)
    requires TablesSay(Apply(NO_ROWS, rec), ls) && (ls == [] ==> rec == NOTHING)
    ensures TablesSay(Apply(NO_ROWS, Ingest(rec, |ls|, line)), ls + [line])
  {
    OneBatchMore(rec, |ls|, line);
    LineCallTables(Apply(NO_ROWS, rec), ls, line);
    LineRows(Apply(NO_ROWS, rec), ls, line);
  }

  lemma {:induction false} MetaIsFirst(decode: Decoder, lines: seq<seq<Byte>>)
    ensures Collect(decode, lines, 0).meta
         == if lines != [] && decode(lines[0]).Header? then decode(lines[0]).meta else NO_META
  {
    if lines != [] {
      var n := |lines| - 1;
      MetaIsFirst(decode, lines[..n]);
      if n > 0 {
        IngestKeepsMeta(Collect(decode, lines[..n], 0), n, decode(lines[n]));
      } else {
        CallsKeepOthers(0, CallsOf(decode(lines[0])));
      }
    }
  }

  /** What one rebuild of a log leaves, straight from its lines: the rows of every table, the metadata of a header on
      line 0, the end of the log and the number of its lines. */
  lemma RebuiltHolds(decode: Decoder, bytes: seq<Byte>)
    ensures var ls, view := Decoded(decode, Lines(bytes)), Rebuilt(decode, bytes);
      && TablesSay(view.tables, ls) && view.byteOffset == |bytes| && view.lineCount == |ls|
      && view.meta == if ls != [] && ls[0].Header? then ls[0].meta else NO_META
  {
    RebuiltIs(decode, bytes);
    CollectedSay(decode, Lines(bytes));
    MetaIsFirst(decode, Lines(bytes));
  }

  /** So does every history of syncs that each end on a newline, for what was read last. */
  lemma HistoryHolds(decode: Decoder, events: seq<Event>)
    requires events != [] && IsHistory(decode, Db(NO_ROWS, None), [], events)
    ensures var db := RunAll(decode, Db(NO_ROWS, None), events);
      var ls := Decoded(decode, Lines(LastRead(decode, Db(NO_ROWS, None), [], events)));
      && db.session.Some? && TablesSay(db.tables, ls) && db.session.value.lineCount == |ls|
      && db.session.value.meta == if ls != [] && ls[0].Header? then ls[0].meta else NO_META
  {
    AnySplitEqualsRebuild(decode, events);
    RebuiltHolds(decode, LastRead(decode, Db(NO_ROWS, None), [], events));
  }

  // ---- when a sync reads, and from where ----

  /** The file looks as it did when it was last read. */
  predicate NothingNew(db: Db, e: Event) {
    && !e.full && db.session.Some? && db.session.value.parserVersion >= 6
    && e.size == db.session.value.size && e.mtime <= db.session.value.mtime
  }

  /** There is nothing stored to build on: the rows are missing or of an older parser, or the file was rewritten. */
  predicate StartsOver(db: Db, e: Event) {
    || e.full || db.session.None? || db.session.value.parserVersion < 6
    || (!NothingNew(db, e) && (e.size < db.session.value.byteOffset
                               || (e.size == db.session.value.byteOffset && e.mtime > db.session.value.mtime)))
  }

  function Kept<T>(given: Option<T>, stored: Option<T>): Option<T> {
    match given
    case Some(_) => given
    case None => stored
  }

  /** Every field that the file gives is stored, and every other stays. */
  predicate MetaKept(given: Meta, stored: Meta, now: Meta) {
    && now.uuid == Kept(given.uuid, stored.uuid) && now.version == Kept(given.version, stored.version)
    && now.title == Kept(given.title, stored.title) && now.cwd == Kept(given.cwd, stored.cwd)
    && now.startedAt == Kept(given.startedAt, stored.startedAt)
  }

  /** A sync with nothing new changes nothing. One that starts over leaves the rows of the whole file. Any other
      writes the rows of the lines after the stored offset over those that are there. What it has seen of the file
      is stored with the version of the parser. */
  lemma SyncDoes(decode: Decoder, db: Db, e: Event)
    ensures NothingNew(db, e) ==> Sync(decode, db, e) == db
    ensures !NothingNew(db, e) ==>
      var row := Sync(decode, db, e).session;
      row.Some? && row.value.size == e.readSize && row.value.mtime == e.readMtime && row.value.parserVersion == 6
    ensures StartsOver(db, e) ==>
      var after, ls := Sync(decode, db, e), Decoded(decode, Lines(e.bytes));
      && TablesSay(after.tables, ls) && after.session.value.byteOffset == |e.bytes|
      && after.session.value.lineCount == |ls|
      && MetaKept(if ls != [] && ls[0].Header? then ls[0].meta else NO_META,
                  if db.session.Some? then db.session.value.meta else NO_META, after.session.value.meta)
    ensures !NothingNew(db, e) && !StartsOver(db, e) ==>
      var after, row := Sync(decode, db, e), db.session.value;
      var lines := Lines(Rest(e.bytes, row.byteOffset));
      && after.tables == Apply(db.tables, Collect(decode, lines, row.lineCount))
      && after.session.value.byteOffset == row.byteOffset + |Rest(e.bytes, row.byteOffset)|
      && after.session.value.lineCount == row.lineCount + |lines|
      && MetaKept(Collect(decode, lines, row.lineCount).meta, row.meta, after.session.value.meta)
  {
    if StartsOver(db, e) {
      assert Rest(e.bytes, 0) == e.bytes;
      CollectedSay(decode, Lines(e.bytes));
      MetaIsFirst(decode, Lines(e.bytes));
    }
  }

  /** A second look at an unchanged file does nothing. */
  lemma SecondLookSkips(decode: Decoder, db: Db, e: Event, again: Event)
    requires !NothingNew(db, e) && !again.full && again.size == e.readSize && again.mtime == e.readMtime
    ensures Sync(decode, Sync(decode, db, e), again) == Sync(decode, db, e)
  {
    SyncDoes(decode, db, e);
    SyncDoes(decode, Sync(decode, db, e), again);
  }
}
