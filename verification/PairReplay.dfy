/** Replaying the reads of one session and file under another configuration. */
module PairReplay {
  import opened Basics
  import opened Intervals

  datatype Intent = Bare | Range(start: int, end: Option<int>) | Raw | Other

  /** An observed call: what was asked for, and the lines that came back if a footer told them. */
  datatype ReadCall = ReadCall(intent: Intent, actual: Option<Interval>)

  datatype FileStats = FileStats(sizeLines: int, tokensPerLine: real, bytesPerLine: real)

  datatype Config = Config(defaultPage: int, lineCap: int, byteCap: int, summarizeMin: int)

  const ROUNDTRIP_OVERHEAD := 200.0
  const SUMMARY_RATE := 0.35

  /** `max(1, int(byte_cap / bytes_per_line))`; truncation and flooring differ below 1 only. */
  function ByteLines(fs: FileStats, cfg: Config): (n: int)
    requires fs.bytesPerLine > 0.0
    ensures n >= 1
  {
    Max(1, (cfg.byteCap as real / fs.bytesPerLine).Floor)
  }

  /** The most lines one simulated call may return. */
  function PerCall(fs: FileStats, cfg: Config): int {
    if fs.bytesPerLine > 0.0 then Min(cfg.lineCap, ByteLines(fs, cfg)) else cfg.lineCap
  }

  /** One simulated call may return `n` lines. */
  predicate FitsOneCall(fs: FileStats, cfg: Config, n: int) {
    && n <= cfg.lineCap
    && (n > 1 && fs.bytesPerLine > 0.0 ==> n as real * fs.bytesPerLine <= cfg.byteCap as real)
  }

  lemma PerCallIff(fs: FileStats, cfg: Config, n: int)
    requires n >= 1
    ensures n <= PerCall(fs, cfg) <==> FitsOneCall(fs, cfg, n)
  {
    if fs.bytesPerLine > 0.0 { BytesFit(fs, cfg, n); }
  }

  /** `k` lines stay within the bytes of one call; one line always does. */
  lemma BytesFit(fs: FileStats, cfg: Config, k: int)
    requires fs.bytesPerLine > 0.0 && k >= 1
    ensures k <= ByteLines(fs, cfg) <==> k == 1 || k as real * fs.bytesPerLine <= cfg.byteCap as real
  {
    var q := cfg.byteCap as real / fs.bytesPerLine;
    assert q * fs.bytesPerLine == cfg.byteCap as real;
    assert k <= q.Floor <==> k as real <= q;
    if k as real <= q { ScaledReal(k as real, q, fs.bytesPerLine); }
    if k as real > q { ScaledMore(q, k as real, fs.bytesPerLine); }
  }

  lemma ScaledReal(a: real, b: real, c: real)
    requires a <= b && c > 0.0
    ensures a * c <= b * c
  {
  }

  lemma ScaledMore(a: real, b: real, c: real)
    requires a < b && c > 0.0
    ensures a * c < b * c
  {
  }

  /** Where a call starts to read: line 0 and no line mean line 1. */
  function FirstLine(intent: Intent): int {
    if intent.Range? && intent.start != 0 then intent.start else 1
  }

  /** The call asks for line `x`, no line before its first being meant. */
  predicate AsksFor(intent: Intent, cfg: Config, x: int) {
    match intent
    case Bare => x <= cfg.defaultPage
    case Range(_, Some(end)) => x <= end
    case Range(_, None) => x < FirstLine(intent) + cfg.defaultPage
    case Raw => true
    case Other => false
  }

  /** Line `x` is returned: the first line in any case, and every later one that is asked for, is in the file, and fits
      the limits on lines and bytes together with those before it. */
  predicate Returns(rc: ReadCall, fs: FileStats, cfg: Config, x: int) {
    var first := FirstLine(rc.intent);
    x == first ||
    (&& first < x <= Max(fs.sizeLines, 1) && AsksFor(rc.intent, cfg, x) && x - first < cfg.lineCap
     && (fs.bytesPerLine > 0.0 ==> (x - first + 1) as real * fs.bytesPerLine <= cfg.byteCap as real))
  }

  /** The last line asked for, if there are that many, within the cap on lines. */
  function LastWanted(rc: ReadCall, fs: FileStats, cfg: Config): int
    requires !rc.intent.Other?
  {
    var size, start := Max(fs.sizeLines, 1), FirstLine(rc.intent);
    var wanted :=
      match rc.intent
      case Bare => cfg.defaultPage
      case Range(_, Some(end)) => end
      case Range(_, None) => start + cfg.defaultPage - 1
      case _ => size;
    Min(Min(wanted, size), start + cfg.lineCap - 1)
  }

  lemma LastWantedIs(rc: ReadCall, fs: FileStats, cfg: Config, x: int)
    requires !rc.intent.Other? && x > FirstLine(rc.intent)
    ensures x <= LastWanted(rc, fs, cfg) <==>
            x <= Max(fs.sizeLines, 1) && AsksFor(rc.intent, cfg, x) && x - FirstLine(rc.intent) < cfg.lineCap
  {
  }

  /** The range the tool would return for a call, `None` for calls without line bounds. */
  function EffectiveReturned(rc: ReadCall, fs: FileStats, cfg: Config): (r: Option<Interval>)
    ensures r.Some? <==> !rc.intent.Other?
    ensures r.Some? ==> forall x :: Has(r.value, x) <==> Returns(rc, fs, cfg, x)
    ensures r.Some? ==> r.value.lo <= r.value.hi
  {
    if rc.intent.Other? then None
    else
      var start, last := FirstLine(rc.intent), LastWanted(rc, fs, cfg);
      var end := if fs.bytesPerLine > 0.0 then Min(last, start + ByteLines(fs, cfg) - 1) else last;
      var r := Interval(start, if end < start then start else end);
      assert forall x :: Has(r, x) <==> Returns(rc, fs, cfg, x) by {
        forall x ensures Has(r, x) <==> Returns(rc, fs, cfg, x) { ReturnedIs(rc, fs, cfg, end, x); }
      }
      Some(r)
  }

  lemma ReturnedIs(rc: ReadCall, fs: FileStats, cfg: Config, end: int, x: int)
    requires !rc.intent.Other?
    requires end == var last := LastWanted(rc, fs, cfg);
                    if fs.bytesPerLine > 0.0 then Min(last, FirstLine(rc.intent) + ByteLines(fs, cfg) - 1) else last
    ensures Returns(rc, fs, cfg, x) <==>
            x == FirstLine(rc.intent) || FirstLine(rc.intent) < x <= end
  {
    var first := FirstLine(rc.intent);
    if x > first {
      LastWantedIs(rc, fs, cfg, x);
      if fs.bytesPerLine > 0.0 { BytesFit(fs, cfg, x - first + 1); }
    }
  }

  function CostOfChunk(iv: Interval, fs: FileStats, bare: bool, cfg: Config): real {
    var raw := Max(iv.hi - iv.lo + 1, 0) as real * fs.tokensPerLine;
    if bare && cfg.summarizeMin >= 0 && fs.sizeLines >= cfg.summarizeMin then raw * SUMMARY_RATE else raw
  }

  // ---- subtraction and chunking ----

  /** Nonempty, ascending and pairwise disjoint (neighbours may touch). */
  predicate Ordered(ivs: seq<Interval>) {
    Nonempty(ivs) && forall i, j :: 0 <= i < j < |ivs| ==> ivs[i].hi < ivs[j].lo
  }

  predicate Within(ivs: seq<Interval>, s: int, e: int) {
    forall i :: 0 <= i < |ivs| ==> s <= ivs[i].lo && ivs[i].hi <= e
  }

  /** What is left of one piece once `cut` is taken out. */
  function Pieces(piece: Interval, cut: Interval): seq<Interval> {
    if cut.hi < piece.lo || cut.lo > piece.hi then [piece]
    else
      (if cut.lo > piece.lo then [Interval(piece.lo, cut.lo - 1)] else [])
      + (if cut.hi < piece.hi then [Interval(cut.hi + 1, piece.hi)] else [])
  }

  lemma PiecesFacts(piece: Interval, cut: Interval, x: int)
    requires piece.lo <= piece.hi && cut.lo <= cut.hi
    ensures var ps := Pieces(piece, cut);
      && |ps| <= 2 && Canonical(ps) && Within(ps, piece.lo, piece.hi)
      && (Covers(ps, x) <==> Has(piece, x) && !Has(cut, x))
  {
    var ps := Pieces(piece, cut);
    if |ps| > 0 { assert Has(ps[0], x) ==> Covers(ps, x); }
    if |ps| > 1 { assert Has(ps[1], x) ==> Covers(ps, x); }
  }

  lemma OrderedAppend(a: seq<Interval>, b: seq<Interval>)
    requires Ordered(a) && Ordered(b) && (a != [] && b != [] ==> a[|a| - 1].hi < b[0].lo)
    ensures Ordered(a + b)
  {
    forall i, j | 0 <= i < |a| && 0 <= j < |b| ensures a[i].hi < b[j].lo {
      if i < |a| - 1 { assert a[i].hi < a[|a| - 1].lo; }
      if j > 0 { assert b[0].hi < b[j].lo; }
    }
  }

  lemma CanonicalAppend(a: seq<Interval>, b: seq<Interval>)
    requires Canonical(a) && Canonical(b) && (a != [] && b != [] ==> a[|a| - 1].hi + 1 < b[0].lo)
    ensures Canonical(a + b)
  {
    forall i, j | 0 <= i < |a| && 0 <= j < |b| ensures a[i].hi + 1 < b[j].lo {
      if i < |a| - 1 { assert a[i].hi + 1 < a[|a| - 1].lo; }
      if j > 0 { assert b[0].hi + 1 < b[j].lo; }
    }
  }

  lemma {:induction false} CoversAppend(a: seq<Interval>, b: seq<Interval>, x: int)
    ensures Covers(a + b, x) <==> Covers(a, x) || Covers(b, x)
  {
    if b == [] {
      assert a + b == a;
    } else {
      var init := b[..|b| - 1];
      assert b == init + [b[|b| - 1]] && a + b == (a + init) + [b[|b| - 1]];
      CoversAppend(a, init, x);
      CoversSnoc(a + init, b[|b| - 1], x);
      CoversSnoc(init, b[|b| - 1], x);
    }
  }

  /** `left` is what remains of the first `i` pieces. */
  ghost predicate CutSoFar(left: seq<Interval>, pieces: seq<Interval>, i: nat, cut: Interval, s: int, e: int)
    requires i <= |pieces|
  {
    && Canonical(left) && Within(left, s, e)
    && (left != [] && i < |pieces| ==> left[|left| - 1].hi + 1 < pieces[i].lo)
    && forall x :: Covers(left, x) <==> Covers(pieces[..i], x) && !Has(cut, x)
  }

  lemma CutStep(left: seq<Interval>, pieces: seq<Interval>, i: nat, cut: Interval, s: int, e: int)
    requires i < |pieces| && Canonical(pieces) && Within(pieces, s, e) && cut.lo <= cut.hi
    requires CutSoFar(left, pieces, i, cut, s, e)
    ensures CutSoFar(left + Pieces(pieces[i], cut), pieces, i + 1, cut, s, e)
  {
    var ps := Pieces(pieces[i], cut);
    forall x ensures Canonical(ps) && Within(ps, pieces[i].lo, pieces[i].hi)
             ensures Covers(ps, x) <==> Has(pieces[i], x) && !Has(cut, x)
    {
      PiecesFacts(pieces[i], cut, x);
    }
    CutAppend(left, ps, pieces, i, cut, s, e);
  }

  lemma CutAppend(left: seq<Interval>, ps: seq<Interval>, pieces: seq<Interval>, i: nat, cut: Interval, s: int, e: int)
    requires i < |pieces| && Canonical(pieces) && Within(pieces, s, e)
    requires CutSoFar(left, pieces, i, cut, s, e)
    requires Canonical(ps) && Within(ps, pieces[i].lo, pieces[i].hi)
    requires forall x :: Covers(ps, x) <==> Has(pieces[i], x) && !Has(cut, x)
    ensures CutSoFar(left + ps, pieces, i + 1, cut, s, e)
  {
    CanonicalAppend(left, ps);
    var all := left + ps;
    CutAppendEnds(left, ps, pieces, i, s, e);
    forall x ensures Covers(all, x) <==> Covers(pieces[..i + 1], x) && !Has(cut, x) {
      CutAppendCovers(left, ps, pieces, i, cut, s, e, x);
    }
  }

  lemma CutAppendEnds(left: seq<Interval>, ps: seq<Interval>, pieces: seq<Interval>, i: nat, s: int, e: int)
    requires i < |pieces| && Canonical(pieces) && Within(pieces, s, e) && Within(left, s, e)
    requires left != [] ==> left[|left| - 1].hi + 1 < pieces[i].lo
    requires Within(ps, pieces[i].lo, pieces[i].hi)
    ensures Within(left + ps, s, e)
    ensures left + ps != [] && i + 1 < |pieces| ==> (left + ps)[|left + ps| - 1].hi + 1 < pieces[i + 1].lo
  {
    var all := left + ps;
    if ps == [] { assert all == left; } else { assert all[|all| - 1] == ps[|ps| - 1]; }
    if i + 1 < |pieces| { assert pieces[i].hi + 1 < pieces[i + 1].lo; }
  }

  lemma CutAppendCovers(left: seq<Interval>, ps: seq<Interval>, pieces: seq<Interval>, i: nat, cut: Interval, s: int,
                        e: int, x: int)
    requires i < |pieces| && CutSoFar(left, pieces, i, cut, s, e)
    requires Covers(ps, x) <==> Has(pieces[i], x) && !Has(cut, x)
    ensures Covers(left + ps, x) <==> Covers(pieces[..i + 1], x) && !Has(cut, x)
  {
    assert Covers(left, x) <==> Covers(pieces[..i], x) && !Has(cut, x);
    CoversAppend(left, ps, x);
    CoversSnoc(pieces[..i], pieces[i], x);
    assert pieces[..i + 1] == pieces[..i] + [pieces[i]];
  }

  /** One piece without `cut`, behind what is left already. */
  method CutPiece(left: seq<Interval>, piece: Interval, cut: Interval) returns (more: seq<Interval>)
    ensures more == left + Pieces(piece, cut)
  {
    var a, b := piece.lo, piece.hi;
    if cut.hi < a || cut.lo > b {
      more := left + [piece];
    } else {
      more := left;
      if cut.lo > a { more := more + [Interval(a, cut.lo - 1)]; }
      if cut.hi < b { more := more + [Interval(cut.hi + 1, b)]; }
    }
  }

  /** One pass of the inner loop: takes `cut` out of every piece. */
  method Cut(pieces: seq<Interval>, cut: Interval, s: int, e: int) returns (left: seq<Interval>)
    requires Canonical(pieces) && Within(pieces, s, e) && cut.lo <= cut.hi
    ensures Canonical(left) && Within(left, s, e)
    ensures forall x :: Covers(left, x) <==> Covers(pieces, x) && !Has(cut, x)
  {
    left := [];
    var i := 0;
    while i < |pieces|
      invariant 0 <= i <= |pieces| && CutSoFar(left, pieces, i, cut, s, e)
    {
      CutStep(left, pieces, i, cut, s, e);
      left := CutPiece(left, pieces[i], cut);
      i := i + 1;
    }
    assert pieces[..|pieces|] == pieces;
  }

  /** `[s, e]` minus the union of `ivs`, as ascending intervals that do not touch. */
  method Subtract(s: int, e: int, ivs: seq<Interval>) returns (out: seq<Interval>)
    requires s <= e && Nonempty(ivs)
    ensures Canonical(out) && Within(out, s, e)
    ensures forall x :: Covers(out, x) <==> s <= x <= e && !Covers(ivs, x)
  {
    out := [Interval(s, e)];
    forall x ensures Covers(out, x) <==> s <= x <= e { assert Has(out[0], x) <==> s <= x <= e; }
    for i := 0 to |ivs|
      invariant Canonical(out) && Within(out, s, e)
      invariant forall x :: Covers(out, x) <==> s <= x <= e && !Covers(ivs[..i], x)
    {
      out := Cut(out, ivs[i], s, e);
      assert ivs[..i + 1] == ivs[..i] + [ivs[i]];
      forall x ensures Covers(out, x) <==> s <= x <= e && !Covers(ivs[..i + 1], x) {
        CoversSnoc(ivs[..i], ivs[i], x);
      }
      if out == [] {
        forall x ensures !(s <= x <= e) || Covers(ivs, x) {
          CoversAppend(ivs[..i + 1], ivs[i + 1..], x);
          assert ivs == ivs[..i + 1] + ivs[i + 1..];
        }
        return;
      }
    }
    assert ivs[..|ivs|] == ivs;
  }

  function CeilDiv(n: nat, d: nat): nat
    requires d > 0
  {
    (n + d - 1) / d
  }

  /** Chunks that tile `[s, e]`: all full except perhaps the last. */
  function Chunks(s: int, e: int, cap: int): (r: seq<Interval>)
    requires cap >= 1
    decreases e + 1 - s
  {
    if s > e then [] else [Interval(s, Min(s + cap - 1, e))] + Chunks(Min(s + cap - 1, e) + 1, e, cap)
  }

  lemma {:induction false} ChunksFacts(s: int, e: int, cap: int)
    requires cap >= 1
    ensures var r := Chunks(s, e, cap);
      && Ordered(r) && Within(r, s, e) && (forall x :: Covers(r, x) <==> s <= x <= e)
      && (forall i :: 0 <= i < |r| ==> r[i].hi - r[i].lo < cap)
      && (forall i :: 0 <= i < |r| - 1 ==> r[i].hi - r[i].lo == cap - 1)
      && |r| == CeilDiv(if s <= e then e - s + 1 else 0, cap)
    decreases e + 1 - s
  {
    var r := Chunks(s, e, cap);
    if s > e {
      DivUnique(cap - 1, cap, 0, cap - 1);
    } else {
      var end := Min(s + cap - 1, e);
      ChunksFacts(end + 1, e, cap);
      OrderedAppend([r[0]], r[1..]);
      assert r == [r[0]] + r[1..];
      forall x ensures Covers(r, x) <==> s <= x <= e { CoversTail(r, x); }
      CeilDivStep(e - s + 1, cap);
    }
  }

  lemma MultipleOf(a: int, d: int)
    requires d > 0
    ensures a >= 1 ==> a * d >= d
    ensures a <= -1 ==> a * d <= -d
  {
    if a >= 1 { assert (a - 1) * d >= 0; }
    if a <= -1 { assert (a + 1) * d <= 0; }
  }

  lemma DivUnique(m: nat, d: nat, q: nat, r: nat)
    requires m == q * d + r && r < d
    ensures m / d == q
  {
    var k, t := m / d, m % d;
    assert m == k * d + t;
    assert (k - q) * d == r - t;
    MultipleOf(k - q, d);
  }

  lemma CeilDivStep(n: nat, d: nat)
    requires d > 0 && n > 0
    ensures CeilDiv(n, d) == 1 + CeilDiv(if n > d then n - d else 0, d)
  {
    if n > d {
      var m := n - 1;
      assert m == (m / d) * d + m % d;
      assert m + d == (m / d + 1) * d + m % d;
      DivUnique(m + d, d, m / d + 1, m % d);
      assert n + d - 1 == m + d && (n - d) + d - 1 == m;
    } else {
      DivUnique(n + d - 1, d, 1, n - 1);
      DivUnique(d - 1, d, 0, d - 1);
    }
  }

  /** As few chunks as the cap allows, covering the range exactly. */
  method ChunkRange(s: int, e: int, fs: FileStats, cfg: Config) returns (out: seq<Interval>)
    requires cfg.lineCap >= 1
    ensures PerCall(fs, cfg) >= 1 && out == Chunks(s, e, PerCall(fs, cfg))
  {
    var maxPerCall := cfg.lineCap;
    if fs.bytesPerLine > 0.0 {
      maxPerCall := Min(maxPerCall, ByteLines(fs, cfg));
    }
    assert maxPerCall == PerCall(fs, cfg);
    out := CutUp(s, e, maxPerCall);
  }

  method CutUp(s: int, e: int, maxPerCall: int) returns (out: seq<Interval>)
    requires maxPerCall >= 1
    ensures out == Chunks(s, e, maxPerCall)
  {
    out := [];
    var cur := s;
    while cur <= e
      invariant Chunks(s, e, maxPerCall) == out + Chunks(cur, e, maxPerCall)
      decreases e + 1 - cur
    {
      var end := Min(cur + maxPerCall - 1, e);
      ChunkTaken(out, cur, end, e, maxPerCall);
      out := out + [Interval(cur, end)];
      cur := end + 1;
    }
    assert out + [] == out;
  }

  lemma ChunkTaken(out: seq<Interval>, cur: int, end: int, e: int, cap: int)
    requires cap >= 1 && cur <= e && end == Min(cur + cap - 1, e)
    ensures out + Chunks(cur, e, cap) == (out + [Interval(cur, end)]) + Chunks(end + 1, e, cap)
  {
    assert out + ([Interval(cur, end)] + Chunks(end + 1, e, cap))
        == (out + [Interval(cur, end)]) + Chunks(end + 1, e, cap);
  }

  // ---- the replay ----

  /** Some call of `calls` would return line `x`. */
  ghost predicate Delivered(calls: seq<ReadCall>, fs: FileStats, cfg: Config, x: int) {
    exists j :: 0 <= j < |calls| && !calls[j].intent.Other? && Returns(calls[j], fs, cfg, x)
  }

  /** The call would return a line that none before it would. */
  ghost predicate BringsMore(before: seq<ReadCall>, rc: ReadCall, fs: FileStats, cfg: Config) {
    !rc.intent.Other? && exists x :: Returns(rc, fs, cfg, x) && !Delivered(before, fs, cfg, x)
  }

  /** The call returns `n` lines. */
  ghost predicate ReturnsLines(rc: ReadCall, fs: FileStats, cfg: Config, n: nat) {
    forall x :: Returns(rc, fs, cfg, x) <==> FirstLine(rc.intent) <= x < FirstLine(rc.intent) + n
  }

  /** So many tokens for each line that is returned; a summary takes 0.35 of them. */
  ghost predicate IsCost(rc: ReadCall, fs: FileStats, cfg: Config, cost: real) {
    exists n: nat :: ReturnsLines(rc, fs, cfg, n) &&
      cost == if rc.intent.Bare? && 0 <= cfg.summarizeMin <= fs.sizeLines then n as real * fs.tokensPerLine * 0.35
              else n as real * fs.tokensPerLine
  }

  /** What each call is charged: nothing unless it brings more. */
  ghost predicate Charging(calls: seq<ReadCall>, fs: FileStats, cfg: Config, charges: seq<Option<real>>) {
    |charges| == |calls| &&
    forall k :: 0 <= k < |calls| ==> ChargedRightly(calls[..k], calls[k], fs, cfg, charges[k])
  }

  ghost predicate ChargedRightly(before: seq<ReadCall>, rc: ReadCall, fs: FileStats, cfg: Config,
                                 charge: Option<real>) {
    if BringsMore(before, rc, fs, cfg) then charge.Some? && IsCost(rc, fs, cfg, charge.value) else charge.None?
  }

  ghost function Tokens(charges: seq<Option<real>>): real {
    if charges == [] then 0.0
    else Tokens(charges[..|charges| - 1])
           + if charges[|charges| - 1].Some? then charges[|charges| - 1].value else 0.0
  }

  ghost function Paid(charges: seq<Option<real>>): nat {
    if charges == [] then 0
    else Paid(charges[..|charges| - 1]) + if charges[|charges| - 1].Some? then 1 else 0
  }

  lemma ChargingSnoc(calls: seq<ReadCall>, rc: ReadCall, fs: FileStats, cfg: Config, charges: seq<Option<real>>,
                     charge: Option<real>)
    requires Charging(calls, fs, cfg, charges) && ChargedRightly(calls, rc, fs, cfg, charge)
    ensures Charging(calls + [rc], fs, cfg, charges + [charge])
    ensures Tokens(charges + [charge]) == Tokens(charges) + if charge.Some? then charge.value else 0.0
    ensures Paid(charges + [charge]) == Paid(charges) + if charge.Some? then 1 else 0
  {
    var all := calls + [rc];
    forall k | 0 <= k < |all| ensures ChargedRightly(all[..k], all[k], fs, cfg, (charges + [charge])[k]) {
      if k < |calls| { assert all[..k] == calls[..k]; } else { assert all[..k] == calls; }
    }
    assert (charges + [charge])[..|charges|] == charges;
  }

  lemma DeliveredSnoc(calls: seq<ReadCall>, rc: ReadCall, fs: FileStats, cfg: Config, x: int)
    ensures Delivered(calls + [rc], fs, cfg, x) <==>
            Delivered(calls, fs, cfg, x) || (!rc.intent.Other? && Returns(rc, fs, cfg, x))
  {
    var all := calls + [rc];
    if Delivered(calls, fs, cfg, x) {
      var j :| 0 <= j < |calls| && !calls[j].intent.Other? && Returns(calls[j], fs, cfg, x);
      assert all[j] == calls[j];
    }
    if !rc.intent.Other? && Returns(rc, fs, cfg, x) { assert all[|calls|] == rc; }
  }

  predicate ObservedCall(rc: ReadCall) { rc.actual.Some? && rc.actual.value.hi >= rc.actual.value.lo }

  /** The agent received line `x` from some call. */
  predicate Observed(calls: seq<ReadCall>, x: int) {
    exists i :: 0 <= i < |calls| && ObservedCall(calls[i]) && Has(calls[i].actual.value, x)
  }

  lemma ObservedSnoc(calls: seq<ReadCall>, rc: ReadCall, x: int)
    ensures Observed(calls + [rc], x) <==> Observed(calls, x) || (ObservedCall(rc) && Has(rc.actual.value, x))
  {
    var all := calls + [rc];
    if Observed(calls, x) {
      var i :| 0 <= i < |calls| && ObservedCall(calls[i]) && Has(calls[i].actual.value, x);
      assert all[i] == calls[i];
    }
    if ObservedCall(rc) && Has(rc.actual.value, x) { assert all[|calls|] == rc; }
  }

  /** Where the first phase stands after `calls`. */
  ghost predicate Folding(calls: seq<ReadCall>, fs: FileStats, cfg: Config, total: real, kept: nat,
                          covered: seq<Interval>, needed: seq<Interval>, charges: seq<Option<real>>) {
    && CoversDelivered(covered, calls, fs, cfg)
    && Charging(calls, fs, cfg, charges) && kept == Paid(charges)
    && total == Tokens(charges) + kept as real * ROUNDTRIP_OVERHEAD
    && Nonempty(needed) && (forall x :: Covers(needed, x) <==> Observed(calls, x))
  }

  method AddNeeded(ghost calls: seq<ReadCall>, needed: seq<Interval>, rc: ReadCall, ghost more: seq<ReadCall>)
    returns (all: seq<Interval>)
    requires more == calls + [rc] && Nonempty(needed) && forall x :: Covers(needed, x) <==> Observed(calls, x)
    ensures Nonempty(all) && forall x :: Covers(all, x) <==> Observed(more, x)
  {
    all := needed;
    if rc.actual.Some? && rc.actual.value.hi >= rc.actual.value.lo {
      all := needed + [rc.actual.value];
    }
    forall x ensures Covers(all, x) <==> Observed(more, x) {
      ObservedSnoc(calls, rc, x);
      if all != needed { CoversSnoc(needed, rc.actual.value, x); }
    }
  }

  lemma CostIs(rc: ReadCall, fs: FileStats, cfg: Config)
    requires !rc.intent.Other?
    ensures IsCost(rc, fs, cfg, CostOfChunk(EffectiveReturned(rc, fs, cfg).value, fs, rc.intent.Bare?, cfg))
  {
    var r := EffectiveReturned(rc, fs, cfg).value;
    var n: nat := r.hi - r.lo + 1;
    assert r.lo == FirstLine(rc.intent);
    forall x ensures Returns(rc, fs, cfg, x) <==> FirstLine(rc.intent) <= x < FirstLine(rc.intent) + n {
      assert Has(r, x) <==> Returns(rc, fs, cfg, x);
    }
    assert ReturnsLines(rc, fs, cfg, n);
  }

  /** The lines covered after a call, and whether it is charged. */
  method Cover(ghost calls: seq<ReadCall>, rc: ReadCall, fs: FileStats, cfg: Config, covered: seq<Interval>,
               ghost more: seq<ReadCall>)
    returns (all: seq<Interval>, charge: Option<real>)
    requires more == calls + [rc] && CoversDelivered(covered, calls, fs, cfg)
    ensures CoversDelivered(all, more, fs, cfg)
    ensures ChargedRightly(calls, rc, fs, cfg, charge)
  {
    all, charge := covered, None;
    var ret := EffectiveReturned(rc, fs, cfg);
    forall x { DeliveredSnoc(calls, rc, fs, cfg, x); }
    if ret.None? { return; }
    InsideIsCoverage(covered, ret.value.lo, ret.value.hi);
    var inside := Contained(ret.value.lo, ret.value.hi, covered);
    AllOldOrNew(calls, rc, fs, cfg, covered, ret.value);
    if !inside {
      CostIs(rc, fs, cfg);
      charge := Some(CostOfChunk(ret.value, fs, rc.intent.Bare?, cfg));
      all := Merge(covered + [ret.value]);
      forall x ensures Covers(all, x) <==> Delivered(more, fs, cfg, x) { CoversSnoc(covered, ret.value, x); }
    }
  }

  lemma AllOldOrNew(calls: seq<ReadCall>, rc: ReadCall, fs: FileStats, cfg: Config, covered: seq<Interval>, r: Interval)
    requires !rc.intent.Other? && forall x :: Has(r, x) <==> Returns(rc, fs, cfg, x)
    requires forall x :: Covers(covered, x) <==> Delivered(calls, fs, cfg, x)
    ensures CoversAll(covered, r.lo, r.hi) <==> !BringsMore(calls, rc, fs, cfg)
    ensures CoversAll(covered, r.lo, r.hi) ==> forall x :: Returns(rc, fs, cfg, x) ==> Delivered(calls, fs, cfg, x)
  {
    if BringsMore(calls, rc, fs, cfg) {
      var x :| Returns(rc, fs, cfg, x) && !Delivered(calls, fs, cfg, x);
      assert Has(r, x) && !Covers(covered, x);
    } else {
      forall x | Has(r, x) ensures Covers(covered, x) { assert Returns(rc, fs, cfg, x); }
    }
    if CoversAll(covered, r.lo, r.hi) {
      forall x | Returns(rc, fs, cfg, x) ensures Delivered(calls, fs, cfg, x) {
        assert Has(r, x) && Covers(covered, x);
      }
    }
  }

  method FoldNext(ghost calls: seq<ReadCall>, fs: FileStats, cfg: Config, total: real, kept: nat,
                  covered: seq<Interval>, needed: seq<Interval>, ghost charges: seq<Option<real>>, rc: ReadCall,
                  ghost more: seq<ReadCall>)
    returns (total': real, kept': nat, covered': seq<Interval>, needed': seq<Interval>,
             ghost charges': seq<Option<real>>)
    requires Folding(calls, fs, cfg, total, kept, covered, needed, charges) && more == calls + [rc]
    ensures Folding(more, fs, cfg, total', kept', covered', needed', charges')
  {
    needed' := AddNeeded(calls, needed, rc, more);
    var charge;
    covered', charge := Cover(calls, rc, fs, cfg, covered, more);
    total', kept' := total, kept;
    if charge.Some? {
      total' := total' + charge.value;
      total' := total' + ROUNDTRIP_OVERHEAD;
      kept' := kept' + 1;
    }
    ChargingSnoc(calls, rc, fs, cfg, charges, charge);
    charges' := charges + [charge];
  }

  /** First phase: folds every call that is not fully covered yet. `needed` collects what the agent got. */
  method Fold(calls: seq<ReadCall>, fs: FileStats, cfg: Config)
    returns (total: real, kept: nat, covered: seq<Interval>, needed: seq<Interval>, ghost charges: seq<Option<real>>)
    ensures Folding(calls, fs, cfg, total, kept, covered, needed, charges)
  {
    covered, needed, total, kept, charges := [], [], 0.0, 0, [];
    var i := 0;
    while i < |calls|
      invariant 0 <= i <= |calls| && Folding(calls[..i], fs, cfg, total, kept, covered, needed, charges)
    {
      assert calls[..i + 1] == calls[..i] + [calls[i]];
      total, kept, covered, needed, charges :=
        FoldNext(calls[..i], fs, cfg, total, kept, covered, needed, charges, calls[i], calls[..i + 1]);
      i := i + 1;
    }
    assert calls[..|calls|] == calls;
  }

  /** The lines the agent got and the simulated calls did not deliver, as ascending intervals. */
  method Shortfall(needed: seq<Interval>, covered: seq<Interval>) returns (gaps: seq<Interval>)
    requires Canonical(needed) && Nonempty(covered)
    ensures Canonical(gaps) && forall x :: Covers(gaps, x) <==> Covers(needed, x) && !Covers(covered, x)
  {
    gaps := [];
    for i := 0 to |needed|
      invariant Canonical(gaps) && (gaps != [] && i < |needed| ==> gaps[|gaps| - 1].hi + 1 < needed[i].lo)
      invariant forall x :: Covers(gaps, x) <==> Covers(needed[..i], x) && !Covers(covered, x)
    {
      var more := Subtract(needed[i].lo, needed[i].hi, covered);
      CanonicalAppend(gaps, more);
      assert needed[..i + 1] == needed[..i] + [needed[i]];
      forall x ensures Covers(gaps + more, x) <==> Covers(needed[..i + 1], x) && !Covers(covered, x) {
        CoversAppend(gaps, more, x);
        CoversSnoc(needed[..i], needed[i], x);
      }
      gaps := gaps + more;
    }
    assert needed[..|needed|] == needed;
  }

  /** How many lines the chunks hold. */
  ghost function Lines(chunks: seq<Interval>): int {
    if chunks == [] then 0
    else Lines(chunks[..|chunks| - 1]) + chunks[|chunks| - 1].hi - chunks[|chunks| - 1].lo + 1
  }

  lemma {:induction false} LinesAppend(a: seq<Interval>, b: seq<Interval>)
    ensures Lines(a + b) == Lines(a) + Lines(b)
  {
    if b == [] {
      assert a + b == a;
    } else {
      assert (a + b)[..|a + b| - 1] == a + b[..|b| - 1];
      LinesAppend(a, b[..|b| - 1]);
    }
  }

  /** Chunks that do not overlap hold as many lines as they cover. */
  lemma {:induction false} LinesAreCounted(chunks: seq<Interval>) returns (lines: set<int>)
    requires Ordered(chunks)
    ensures |lines| == Lines(chunks) && forall x :: x in lines <==> Covers(chunks, x)
  {
    lines := {};
    if chunks != [] {
      var n := |chunks| - 1;
      var init, last := chunks[..n], chunks[n];
      var before := LinesAreCounted(init);
      var more := LinesFrom(last.lo, last.hi);
      assert chunks == init + [last];
      forall x | Covers(init, x) ensures x < last.lo { BeforeLast(chunks, init, x); }
      Apart(before, more, last.lo);
      lines := before + more;
      forall x ensures x in lines <==> Covers(chunks, x) { CoversSnoc(init, last, x); }
    }
  }

  lemma BeforeLast(chunks: seq<Interval>, init: seq<Interval>, x: int)
    requires Ordered(chunks) && chunks != [] && init == chunks[..|chunks| - 1] && Covers(init, x)
    ensures x < chunks[|chunks| - 1].lo
  {
    var i :| 0 <= i < |init| && Has(init[i], x);
    assert chunks[i].hi < chunks[|chunks| - 1].lo;
  }

  lemma Apart(a: set<int>, b: set<int>, m: int)
    requires forall x :: (x in a ==> x < m) && (x in b ==> x >= m)
    ensures |a + b| == |a| + |b|
  {
    forall x | x in a ensures x !in b { assert x < m; }
    assert a * b == {};
  }

  lemma {:induction false} LinesFrom(lo: int, hi: int) returns (lines: set<int>)
    requires lo <= hi + 1
    ensures |lines| == hi + 1 - lo && forall x :: x in lines <==> lo <= x <= hi
    decreases hi + 1 - lo
  {
    lines := {};
    if lo <= hi {
      var rest := LinesFrom(lo + 1, hi);
      lines := rest + {lo};
    }
  }

  /** Each chunk fits one call, and is followed by no line of a gap unless one more line would not fit. */
  predicate Filled(chunks: seq<Interval>, fs: FileStats, cfg: Config, gaps: seq<Interval>) {
    forall k :: 0 <= k < |chunks| ==>
      && FitsOneCall(fs, cfg, chunks[k].hi - chunks[k].lo + 1)
      && (FitsOneCall(fs, cfg, chunks[k].hi - chunks[k].lo + 2) ==> EndsOne(gaps, chunks[k].hi))
  }

  predicate EndsOne(gaps: seq<Interval>, x: int) {
    exists g :: 0 <= g < |gaps| && gaps[g].hi == x
  }

  lemma ChunksFill(gap: Interval, cap: int, fs: FileStats, cfg: Config, chunks: seq<Interval>)
    requires cap == PerCall(fs, cfg) >= 1 && chunks == Chunks(gap.lo, gap.hi, cap)
    ensures Filled(chunks, fs, cfg, [gap])
  {
    ChunksFacts(gap.lo, gap.hi, cap);
    forall k | 0 <= k < |chunks|
      ensures FitsOneCall(fs, cfg, chunks[k].hi - chunks[k].lo + 1)
      ensures FitsOneCall(fs, cfg, chunks[k].hi - chunks[k].lo + 2) ==> EndsOne([gap], chunks[k].hi)
    {
      PerCallIff(fs, cfg, chunks[k].hi - chunks[k].lo + 1);
      PerCallIff(fs, cfg, chunks[k].hi - chunks[k].lo + 2);
      if k == |chunks| - 1 { LastChunkEnds(gap, cap, chunks); assert [gap][0].hi == chunks[k].hi; }
    }
  }

  lemma LastChunkEnds(gap: Interval, cap: int, chunks: seq<Interval>)
    requires cap >= 1 && chunks == Chunks(gap.lo, gap.hi, cap) && chunks != []
    ensures chunks[|chunks| - 1].hi == gap.hi
  {
    ChunksFacts(gap.lo, gap.hi, cap);
    assert Has(chunks[0], chunks[0].lo) && Covers(chunks, chunks[0].lo);
    assert Covers(chunks, gap.hi);
    var i :| 0 <= i < |chunks| && Has(chunks[i], gap.hi);
  }

  lemma FilledAppend(a: seq<Interval>, b: seq<Interval>, fs: FileStats, cfg: Config, gaps: seq<Interval>,
                     gap: Interval)
    requires Filled(a, fs, cfg, gaps) && Filled(b, fs, cfg, [gap])
    ensures Filled(a + b, fs, cfg, gaps + [gap])
  {
    forall x | EndsOne(gaps, x) ensures EndsOne(gaps + [gap], x) {
      var g :| 0 <= g < |gaps| && gaps[g].hi == x;
      assert (gaps + [gap])[g].hi == x;
    }
    forall x | EndsOne([gap], x) ensures EndsOne(gaps + [gap], x) { assert (gaps + [gap])[|gaps|].hi == x; }
  }

  /** Where the second phase stands after the first `i` gaps: cost, covered lines, and the chunks in order. */
  ghost predicate Filling(gaps: seq<Interval>, i: nat, start: seq<Interval>, fs: FileStats, cfg: Config,
                          cost: real, covered: seq<Interval>, chunks: seq<Interval>)
    requires i <= |gaps|
  {
    FillingLines(gaps, i, start, fs, cfg, covered, chunks) && cost == ChunkCost(chunks, fs)
  }

  ghost predicate FillingLines(gaps: seq<Interval>, i: nat, start: seq<Interval>, fs: FileStats, cfg: Config,
                               covered: seq<Interval>, chunks: seq<Interval>)
    requires i <= |gaps|
  {
    && Ordered(chunks) && (chunks != [] && i < |gaps| ==> chunks[|chunks| - 1].hi < gaps[i].lo)
    && Filled(chunks, fs, cfg, gaps[..i])
    && SameLines(chunks, gaps[..i])
    && Canonical(covered) && Together(covered, start, chunks)
  }

  ghost function ChunkCost(chunks: seq<Interval>, fs: FileStats): real {
    Lines(chunks) as real * fs.tokensPerLine + |chunks| as real * ROUNDTRIP_OVERHEAD
  }

  ghost predicate Together(all: seq<Interval>, a: seq<Interval>, b: seq<Interval>) {
    forall x :: Covers(all, x) <==> Covers(a, x) || Covers(b, x)
  }

  lemma FillCovers(gaps: seq<Interval>, i: nat, start: seq<Interval>, covered: seq<Interval>, chunks: seq<Interval>,
                   more: seq<Interval>, merged: seq<Interval>)
    requires i < |gaps| && SameLines(chunks, gaps[..i]) && Together(covered, start, chunks)
    requires (forall x :: Covers(more, x) <==> Has(gaps[i], x)) && SameLines(merged, covered + more)
    ensures SameLines(chunks + more, gaps[..i + 1]) && Together(merged, start, chunks + more)
  {
    assert gaps[..i + 1] == gaps[..i] + [gaps[i]];
    forall x ensures Covers(chunks + more, x) <==> Covers(gaps[..i + 1], x)
             ensures Covers(merged, x) <==> Covers(start, x) || Covers(chunks + more, x)
    {
      assert Covers(merged, x) <==> Covers(covered + more, x);
      CoversAppend(chunks, more, x);
      CoversAppend(covered, more, x);
      CoversSnoc(gaps[..i], gaps[i], x);
    }
  }

  lemma FillOrder(gaps: seq<Interval>, i: nat, chunks: seq<Interval>, more: seq<Interval>)
    requires i < |gaps| && Canonical(gaps) && Ordered(chunks) && Ordered(more)
    requires chunks != [] ==> chunks[|chunks| - 1].hi < gaps[i].lo
    requires Within(more, gaps[i].lo, gaps[i].hi)
    ensures var all := chunks + more;
      Ordered(all) && (all != [] && i + 1 < |gaps| ==> all[|all| - 1].hi < gaps[i + 1].lo)
  {
    var all := chunks + more;
    OrderedAppend(chunks, more);
    if more == [] { assert all == chunks; } else { assert all[|all| - 1] == more[|more| - 1]; }
    assert i + 1 < |gaps| ==> gaps[i].lo <= gaps[i].hi < gaps[i + 1].lo;
  }

  lemma FillMore(gaps: seq<Interval>, i: nat, start: seq<Interval>, fs: FileStats, cfg: Config,
                 covered: seq<Interval>, chunks: seq<Interval>, more: seq<Interval>, merged: seq<Interval>)
    requires i < |gaps| && Canonical(gaps) && FillingLines(gaps, i, start, fs, cfg, covered, chunks)
    requires Ordered(more) && Within(more, gaps[i].lo, gaps[i].hi) && Filled(more, fs, cfg, [gaps[i]])
    requires forall x :: Covers(more, x) <==> Has(gaps[i], x)
    requires Canonical(merged) && SameLines(merged, covered + more)
    ensures FillingLines(gaps, i + 1, start, fs, cfg, merged, chunks + more)
  {
    FillOrder(gaps, i, chunks, more);
    FillCovers(gaps, i, start, covered, chunks, more, merged);
    FilledAppend(chunks, more, fs, cfg, gaps[..i], gaps[i]);
    assert gaps[..i + 1] == gaps[..i] + [gaps[i]];
  }

  lemma ChunkCostAppend(chunks: seq<Interval>, more: seq<Interval>, fs: FileStats)
    ensures ChunkCost(chunks + more, fs) == ChunkCost(chunks, fs) + ChunkCost(more, fs)
  {
    LinesAppend(chunks, more);
    Spread(Lines(chunks), Lines(more), |chunks|, |more|, fs);
  }

  method FillGap(ghost gaps: seq<Interval>, ghost i: nat, ghost start: seq<Interval>, gap: Interval, fs: FileStats,
                 cfg: Config, cost: real, covered: seq<Interval>, chunks: seq<Interval>)
    returns (cost': real, covered': seq<Interval>, chunks': seq<Interval>)
    requires cfg.lineCap >= 1 && i < |gaps| && gap == gaps[i] && Canonical(gaps)
    requires Filling(gaps, i, start, fs, cfg, cost, covered, chunks)
    ensures Filling(gaps, i + 1, start, fs, cfg, cost', covered', chunks')
  {
    var more := ChunkRange(gap.lo, gap.hi, fs, cfg);
    ChunksFacts(gap.lo, gap.hi, PerCall(fs, cfg));
    ChunksFill(gap, PerCall(fs, cfg), fs, cfg, more);
    var extra := ChargeChunks(more, fs, cfg);
    var merged := Merge(covered + more);
    FillMore(gaps, i, start, fs, cfg, covered, chunks, more, merged);
    ChunkCostAppend(chunks, more, fs);
    cost', covered', chunks' := cost + extra, merged, chunks + more;
  }

  lemma Spread(a: int, b: int, m: nat, n: nat, fs: FileStats)
    ensures (a + b) as real * fs.tokensPerLine + (m + n) as real * ROUNDTRIP_OVERHEAD
              == (a as real * fs.tokensPerLine + m as real * ROUNDTRIP_OVERHEAD)
                 + (b as real * fs.tokensPerLine + n as real * ROUNDTRIP_OVERHEAD)
  {
    assert (a + b) as real == a as real + b as real;
    Distributes(a as real, b as real, fs.tokensPerLine);
  }

  lemma Distributes(a: real, b: real, c: real)
    ensures (a + b) * c == a * c + b * c
  {
  }

  /** Second phase: fills each gap chunk by chunk, charging every chunk. */
  method Fill(gaps: seq<Interval>, start: seq<Interval>, fs: FileStats, cfg: Config)
    returns (cost: real, covered: seq<Interval>, chunks: seq<Interval>)
    requires cfg.lineCap >= 1 && Canonical(gaps) && Canonical(start)
    ensures Filling(gaps, |gaps|, start, fs, cfg, cost, covered, chunks)
    ensures SameLines(chunks, gaps) && Filled(chunks, fs, cfg, gaps)
  {
    cost, covered, chunks := 0.0, start, [];
    var i := 0;
    while i < |gaps|
      invariant 0 <= i <= |gaps| && Filling(gaps, i, start, fs, cfg, cost, covered, chunks)
    {
      cost, covered, chunks := FillGap(gaps, i, start, gaps[i], fs, cfg, cost, covered, chunks);
      i := i + 1;
    }
    assert gaps[..|gaps|] == gaps;
  }

  lemma ChunkCostOne(chunk: Interval, fs: FileStats, cfg: Config)
    requires chunk.lo <= chunk.hi
    ensures ChunkCost([chunk], fs) == CostOfChunk(chunk, fs, false, cfg) + ROUNDTRIP_OVERHEAD
  {
    assert [chunk][..0] == [];
    assert Lines([chunk]) == chunk.hi - chunk.lo + 1;
  }

  method ChargeChunks(more: seq<Interval>, fs: FileStats, cfg: Config) returns (cost: real)
    requires Nonempty(more)
    ensures cost == ChunkCost(more, fs)
  {
    cost := 0.0;
    for j := 0 to |more|
      invariant cost == ChunkCost(more[..j], fs)
    {
      assert more[..j + 1] == more[..j] + [more[j]];
      ChunkCostAppend(more[..j], [more[j]], fs);
      ChunkCostOne(more[j], fs, cfg);
      cost := cost + CostOfChunk(more[j], fs, false, cfg);
      cost := cost + ROUNDTRIP_OVERHEAD;
    }
    assert more[..|more|] == more;
  }

  /** `x` was observed, and no simulated call of the first phase returns it. */
  ghost predicate Missing(calls: seq<ReadCall>, fs: FileStats, cfg: Config, x: int) {
    Observed(calls, x) && !Delivered(calls, fs, cfg, x)
  }

  /** The synthetic chunks: in order, over exactly the missing lines, each as large as a call may be unless the line
      behind it is not missing. */
  ghost predicate ChunksOfMissing(calls: seq<ReadCall>, fs: FileStats, cfg: Config, chunks: seq<Interval>) {
    && Ordered(chunks) && CoversMissing(chunks, calls, fs, cfg)
    && forall k :: 0 <= k < |chunks| ==> AsLargeAsFits(calls, fs, cfg, chunks[k])
  }

  ghost predicate AsLargeAsFits(calls: seq<ReadCall>, fs: FileStats, cfg: Config, chunk: Interval) {
    && FitsOneCall(fs, cfg, chunk.hi - chunk.lo + 1)
    && (Missing(calls, fs, cfg, chunk.hi + 1) ==> !FitsOneCall(fs, cfg, chunk.hi - chunk.lo + 2))
  }

  lemma NoneBehind(gaps: seq<Interval>, x: int)
    requires Canonical(gaps) && EndsOne(gaps, x)
    ensures !Covers(gaps, x + 1)
  {
    var g :| 0 <= g < |gaps| && gaps[g].hi == x;
    if i :| 0 <= i < |gaps| && Has(gaps[i], x + 1) {
      assert i < g ==> gaps[i].hi + 1 < gaps[g].lo;
      assert g < i ==> gaps[g].hi + 1 < gaps[i].lo;
    }
  }

  lemma FilledIsMissing(calls: seq<ReadCall>, fs: FileStats, cfg: Config, gaps: seq<Interval>, chunks: seq<Interval>)
    requires Canonical(gaps) && CoversMissing(gaps, calls, fs, cfg)
    requires Ordered(chunks) && SameLines(chunks, gaps) && Filled(chunks, fs, cfg, gaps)
    ensures ChunksOfMissing(calls, fs, cfg, chunks)
  {
    forall x ensures Covers(chunks, x) <==> Missing(calls, fs, cfg, x) {
      assert Covers(gaps, x) <==> Missing(calls, fs, cfg, x);
    }
    forall k | 0 <= k < |chunks| ensures AsLargeAsFits(calls, fs, cfg, chunks[k]) {
      if EndsOne(gaps, chunks[k].hi) { NoneBehind(gaps, chunks[k].hi); }
    }
  }

  ghost predicate CoversDelivered(ivs: seq<Interval>, calls: seq<ReadCall>, fs: FileStats, cfg: Config) {
    Canonical(ivs) && forall x :: Covers(ivs, x) <==> Delivered(calls, fs, cfg, x)
  }

  ghost predicate CoversMissing(ivs: seq<Interval>, calls: seq<ReadCall>, fs: FileStats, cfg: Config) {
    forall x :: Covers(ivs, x) <==> Missing(calls, fs, cfg, x)
  }

  /** The gaps between what was observed and what the first phase returns. */
  method FindGaps(calls: seq<ReadCall>, fs: FileStats, cfg: Config, needed: seq<Interval>, phase1: seq<Interval>)
    returns (gaps: seq<Interval>)
    requires Nonempty(needed) && CoversDelivered(phase1, calls, fs, cfg)
    requires forall x :: Covers(needed, x) <==> Observed(calls, x)
    ensures Canonical(gaps) && CoversMissing(gaps, calls, fs, cfg)
  {
    var merged := Merge(needed);
    gaps := Shortfall(merged, phase1);
  }

  /** Exactly the lines that calls of the first phase return or that were observed. */
  ghost predicate CoversReached(covered: seq<Interval>, calls: seq<ReadCall>, fs: FileStats, cfg: Config) {
    Canonical(covered) && forall x :: Covers(covered, x) <==> Delivered(calls, fs, cfg, x) || Observed(calls, x)
  }

  ghost predicate AreMissing(lines: set<int>, calls: seq<ReadCall>, fs: FileStats, cfg: Config) {
    forall x :: x in lines <==> Missing(calls, fs, cfg, x)
  }

  lemma AllReached(calls: seq<ReadCall>, fs: FileStats, cfg: Config, phase1: seq<Interval>, chunks: seq<Interval>,
                   covered: seq<Interval>)
    requires CoversDelivered(phase1, calls, fs, cfg) && CoversMissing(chunks, calls, fs, cfg)
    requires Canonical(covered) && Together(covered, phase1, chunks)
    ensures CoversReached(covered, calls, fs, cfg)
  {
  }

  lemma MissingCounted(calls: seq<ReadCall>, fs: FileStats, cfg: Config, chunks: seq<Interval>)
    returns (lines: set<int>)
    requires ChunksOfMissing(calls, fs, cfg, chunks)
    ensures AreMissing(lines, calls, fs, cfg) && |lines| == Lines(chunks)
  {
    lines := LinesAreCounted(chunks);
  }

  /** The second phase for the gaps that are there. */
  method FillGaps(calls: seq<ReadCall>, fs: FileStats, cfg: Config, phase1: seq<Interval>, gaps: seq<Interval>)
    returns (cost: real, covered: seq<Interval>, chunks: seq<Interval>, ghost missing: set<int>)
    requires cfg.lineCap >= 1 && Canonical(gaps) && CoversMissing(gaps, calls, fs, cfg)
    requires CoversDelivered(phase1, calls, fs, cfg)
    ensures ChunksOfMissing(calls, fs, cfg, chunks) && AreMissing(missing, calls, fs, cfg)
    ensures CoversReached(covered, calls, fs, cfg)
    ensures cost == |missing| as real * fs.tokensPerLine + |chunks| as real * ROUNDTRIP_OVERHEAD
  {
    cost, covered, chunks := Fill(gaps, phase1, fs, cfg);
    FilledIsMissing(calls, fs, cfg, gaps, chunks);
    missing := MissingCounted(calls, fs, cfg, chunks);
    AllReached(calls, fs, cfg, phase1, chunks, covered);
  }

  /** Both phases: the total, the number of calls and the lines finally covered; beside them what each call of the
      first phase was charged, the missing lines, and the chunks that fill them. */
  method ReplayPair(calls: seq<ReadCall>, fs: FileStats, cfg: Config)
    returns (total: real, kept: nat, covered: seq<Interval>, chunks: seq<Interval>,
             ghost charges: seq<Option<real>>, ghost missing: set<int>)
    requires cfg.lineCap >= 1
    ensures Charging(calls, fs, cfg, charges)
    ensures ChunksOfMissing(calls, fs, cfg, chunks) && AreMissing(missing, calls, fs, cfg)
    ensures CoversReached(covered, calls, fs, cfg)
    ensures kept == Paid(charges) + |chunks|
    ensures total == Tokens(charges) + |missing| as real * fs.tokensPerLine + kept as real * ROUNDTRIP_OVERHEAD
  {
    var tokens, charged, phase1, needed;
    tokens, charged, phase1, needed, charges := Fold(calls, fs, cfg);
    var gaps := FindGaps(calls, fs, cfg, needed, phase1);
    var cost;
    cost, covered, chunks, missing := FillGaps(calls, fs, cfg, phase1, gaps);
    total, kept := tokens + cost, charged + |chunks|;
    Distributes(charged as real, |chunks| as real, ROUNDTRIP_OVERHEAD);
  }
}
