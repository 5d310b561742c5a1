/** Replaying grouped reads: a call is skipped when earlier calls delivered it all. */
module ReadReplay {
  import opened Basics
  import opened Intervals

  /** A read as parsed: `Unmodelled` stands for raw, conflict and other selectors. */
  datatype Call = Explicit(start: int, end: int) | Open(start: int) | Default | Unmodelled

  datatype Settings = Settings(page: int, maxLines: int, leading: int, trailing: int)

  /** Selectors are digits, and parsing never leaves an explicit range reversed. */
  predicate ParsedCall(c: Call) {
    (c.Explicit? ==> 0 <= c.start <= c.end) && (c.Open? ==> 0 <= c.start)
  }

  predicate ParsedGroup(group: seq<Call>) {
    forall i :: 0 <= i < |group| ==> ParsedCall(group[i])
  }

  predicate ValidSettings(cfg: Settings) {
    cfg.page >= 1 && cfg.maxLines >= 0 && cfg.leading >= 0 && cfg.trailing >= 0
  }

  function Requested(c: Call, cfg: Settings): Option<Interval> {
    match c
    case Explicit(start, end) => Some(Interval(start, end))
    case Open(start) => Some(Interval(start, start + cfg.page - 1))
    case Default => Some(Interval(1, cfg.page))
    case Unmodelled => None
  }

  /** Line `x` is requested. */
  predicate Wants(c: Call, cfg: Settings, x: int) {
    match c
    case Explicit(s, e) => s <= x <= e
    case Open(s) => s <= x < s + cfg.page
    case Default => 1 <= x <= cfg.page
    case Unmodelled => false
  }

  lemma RequestedWants(c: Call, cfg: Settings)
    requires ParsedCall(c) && ValidSettings(cfg)
    ensures Requested(c, cfg).Some? <==> !c.Unmodelled?
    ensures var r := Requested(c, cfg);
      r.Some? ==> r.value.lo <= r.value.hi && forall x :: Has(r.value, x) <==> Wants(c, cfg, x)
  {
  }

  /** Nothing is asked for but line 0, or nothing may be delivered. */
  predicate DeliversNothing(c: Call, cfg: Settings) {
    || cfg.maxLines == 0
    || (c.Explicit? && c.end == 0 && cfg.trailing == 0)
    || (c.Open? && c.start == 0 && cfg.page == 1)
  }

  /** Line `x` comes back: it is requested, or among the lines padded in front or, for an explicit range, behind; and
      the cap is not used up before it. */
  predicate ComesBack(c: Call, cfg: Settings, x: int) {
    match c
    case Explicit(s, e) =>
      Max(1, s - cfg.leading) <= x <= e + cfg.trailing && x - Max(1, s - cfg.leading) < cfg.maxLines
    case Open(s) => Max(1, s - cfg.leading) <= x < s + cfg.page && x - Max(1, s - cfg.leading) < cfg.maxLines
    case Default => 1 <= x <= cfg.page && x <= cfg.maxLines
    case Unmodelled => false
  }

  /** What comes back: the request with padding before and after, unless the cap cuts it off. */
  function Delivered(c: Call, cfg: Settings): (r: Option<Interval>)
    requires ParsedCall(c) && ValidSettings(cfg)
    ensures r.Some? <==> !c.Unmodelled?
    ensures r.Some? ==> forall x :: Has(r.value, x) <==> ComesBack(c, cfg, x)
    ensures r.Some? <==> Requested(c, cfg).Some?
    ensures r.Some? ==> 1 <= r.value.lo <= r.value.hi + 1 && r.value.hi + 1 - r.value.lo <= cfg.maxLines
    ensures r.Some? ==> (r.value.lo > r.value.hi <==> DeliversNothing(c, cfg))
    ensures r.Some? ==> var req := Requested(c, cfg).value;
      r.value.lo <= Max(1, req.lo) && (req.hi <= r.value.hi || r.value.hi + 1 - r.value.lo == cfg.maxLines)
  {
    match c
    case Explicit(s, e) =>
      var start := if s > 1 then Max(1, s - cfg.leading) else 1;
      var lines := Min(Max(1, e - s + 1) + (s - start) + cfg.trailing, cfg.maxLines);
      Some(Interval(start, start + lines - 1))
    case Open(s) =>
      var start := if s > 1 then Max(1, s - cfg.leading) else 1;
      var lines := Min(cfg.page + (s - start), cfg.maxLines);
      Some(Interval(start, start + lines - 1))
    case Default => Some(Interval(1, Min(cfg.page, cfg.maxLines)))
    case Unmodelled => None
  }

  datatype Verdict = Unbounded | Paid | Skipped

  /** Line `x` came back from one of the first `i` calls, and that call was paid for. */
  predicate DeliveredBefore(group: seq<Call>, verdicts: seq<Verdict>, cfg: Settings, i: nat, x: int)
    requires i <= |group| && i <= |verdicts| && ParsedGroup(group) && ValidSettings(cfg)
  {
    exists j :: 0 <= j < i && verdicts[j] == Paid && ComesBack(group[j], cfg, x)
  }

  ghost predicate AllDelivered(group: seq<Call>, verdicts: seq<Verdict>, cfg: Settings, i: nat)
    requires i < |group| && i <= |verdicts| && ParsedGroup(group) && ValidSettings(cfg)
  {
    forall x :: Wants(group[i], cfg, x) ==> DeliveredBefore(group, verdicts, cfg, i, x)
  }

  /** After the first call, a bounded call is skipped exactly when every line it requests was
      delivered by an earlier paid call. */
  ghost predicate RightVerdict(group: seq<Call>, verdicts: seq<Verdict>, cfg: Settings, i: nat, v: Verdict)
    requires i < |group| && i <= |verdicts| && ParsedGroup(group) && ValidSettings(cfg)
  {
    if group[i].Unmodelled? then v == Unbounded
    else v == if i > 0 && AllDelivered(group, verdicts, cfg, i) then Skipped else Paid
  }

  ghost predicate Explains(group: seq<Call>, verdicts: seq<Verdict>, cfg: Settings)
    requires ParsedGroup(group) && ValidSettings(cfg)
  {
    |verdicts| == |group| && forall i :: 0 <= i < |group| ==> RightVerdict(group, verdicts, cfg, i, verdicts[i])
  }

  lemma DeliveredBeforeSnoc(group: seq<Call>, verdicts: seq<Verdict>, cfg: Settings, i: nat, x: int)
    requires i < |group| && i < |verdicts| && ParsedGroup(group) && ValidSettings(cfg)
    requires verdicts[i] == Paid ==> Delivered(group[i], cfg).Some?
    ensures DeliveredBefore(group, verdicts, cfg, i + 1, x) <==>
            DeliveredBefore(group, verdicts, cfg, i, x)
            || (verdicts[i] == Paid && ComesBack(group[i], cfg, x))
  {
    if DeliveredBefore(group, verdicts, cfg, i, x) {
      var j :| 0 <= j < i && verdicts[j] == Paid && ComesBack(group[j], cfg, x);
      assert j < i + 1;
    }
  }

  lemma DeliveredBeforePrefix(group: seq<Call>, v: seq<Verdict>, w: seq<Verdict>, cfg: Settings, i: nat, x: int)
    requires i <= |group| && i <= |v| && i <= |w| && v[..i] == w[..i] && ParsedGroup(group) && ValidSettings(cfg)
    ensures DeliveredBefore(group, v, cfg, i, x) <==> DeliveredBefore(group, w, cfg, i, x)
  {
    assert forall j :: 0 <= j < i ==> v[j] == v[..i][j] && w[j] == w[..i][j];
  }

  predicate SelectorFirst(group: seq<Call>)
    requires group != []
  {
    group[0].Explicit? || group[0].Open?
  }

  lemma RightVerdictKept(group: seq<Call>, v: seq<Verdict>, w: seq<Verdict>, cfg: Settings, i: nat, r: Verdict)
    requires i < |group| && i <= |v| && i <= |w| && v[..i] == w[..i] && ParsedGroup(group) && ValidSettings(cfg)
    requires RightVerdict(group, v, cfg, i, r)
    ensures RightVerdict(group, w, cfg, i, r)
  {
    forall x ensures DeliveredBefore(group, v, cfg, i, x) <==> DeliveredBefore(group, w, cfg, i, x) {
      DeliveredBeforePrefix(group, v, w, cfg, i, x);
    }
  }

  /** One group. `coverage` stays spaced, so the early exit of the coverage test is exact. */
  method ReplayGroup(group: seq<Call>, cfg: Settings) returns (verdicts: seq<Verdict>, allByFirst: bool)
    requires group != [] && ParsedGroup(group) && ValidSettings(cfg)
    ensures Explains(group, verdicts, cfg)
    ensures allByFirst <==> SelectorFirst(group) && LaterInsideFirst(group, cfg)
  {
    var coverage: seq<Interval> := [];
    verdicts, allByFirst := [], false;
    for i := 0 to |group|
      invariant |verdicts| == i && Spaced(coverage)
      invariant forall k :: 0 <= k < i ==> RightVerdict(group, verdicts, cfg, k, verdicts[k])
      invariant forall x :: Covers(coverage, x) <==> DeliveredBefore(group, verdicts, cfg, i, x)
      invariant i == 0 ==> coverage == []
      invariant allByFirst <==> i > 0 && SelectorFirst(group) && LaterInsideFirst(group, cfg)
    {
      ghost var before, coverage0 := verdicts, coverage;
      var req, delivered := Requested(group[i], cfg), Delivered(group[i], cfg);
      RequestedWants(group[i], cfg);
      if req.None? {
        verdicts := verdicts + [Unbounded];
      } else {
        var covered := false;
        if i > 0 { covered := IsCovered(coverage, req.value); }
        if i > 0 && covered {
          verdicts := verdicts + [Skipped];
        } else {
          verdicts := verdicts + [Paid];
          coverage := AddInterval(coverage, delivered.value);
          if i == 0 && SelectorFirst(group) {
            allByFirst := CheckLater(group, cfg);
          }
        }
      }
      assert verdicts[..i] == before;
      forall k | 0 <= k < i ensures RightVerdict(group, verdicts, cfg, k, verdicts[k]) {
        assert before[..k] == verdicts[..k];
        RightVerdictKept(group, before, verdicts, cfg, k, before[k]);
      }
      assert RightVerdict(group, before, cfg, i, verdicts[i]);
      assert before[..i] == verdicts[..i];
      RightVerdictKept(group, before, verdicts, cfg, i, verdicts[i]);
      forall x ensures Covers(coverage, x) <==> DeliveredBefore(group, verdicts, cfg, i + 1, x) {
        DeliveredBeforePrefix(group, before, verdicts, cfg, i, x);
        DeliveredBeforeSnoc(group, verdicts, cfg, i, x);
      }
    }
  }

  /** Every later bounded request lies within what the first call delivered. */
  ghost predicate LaterInsideFirst(group: seq<Call>, cfg: Settings)
    requires group != [] && ParsedGroup(group) && ValidSettings(cfg)
  {
    && !group[0].Unmodelled?
    && forall i, x :: 0 < i < |group| && Wants(group[i], cfg, x) ==> ComesBack(group[0], cfg, x)
  }

  /** For one later call this is what the test of the interval ends says. */
  lemma InsideIsWanted(first: Call, later: Call, cfg: Settings)
    requires ParsedCall(first) && ParsedCall(later) && ValidSettings(cfg) && !first.Unmodelled? && !later.Unmodelled?
    ensures var d, req := Delivered(first, cfg).value, Requested(later, cfg).value;
      (d.lo <= req.lo && req.hi <= d.hi) <==> forall x :: Wants(later, cfg, x) ==> ComesBack(first, cfg, x)
  {
    var d, req := Delivered(first, cfg).value, Requested(later, cfg).value;
    RequestedWants(later, cfg);
    assert Has(req, req.lo) && Has(req, req.hi);
    if forall x :: Wants(later, cfg, x) ==> ComesBack(first, cfg, x) {
      assert Has(d, req.lo) && Has(d, req.hi);
    }
  }

  method CheckLater(group: seq<Call>, cfg: Settings) returns (all: bool)
    requires group != [] && ParsedGroup(group) && ValidSettings(cfg) && Delivered(group[0], cfg).Some?
    ensures all <==> LaterInsideFirst(group, cfg)
  {
    var first := Delivered(group[0], cfg).value;
    for i := 1 to |group|
      invariant forall k, x :: 0 < k < i && Wants(group[k], cfg, x) ==> ComesBack(group[0], cfg, x)
    {
      var later := Requested(group[i], cfg);
      RequestedWants(group[i], cfg);
      if later.Some? {
        var covered := IsCovered([first], later.value);
        assert covered <==> [first][0].lo <= later.value.lo && later.value.hi <= [first][0].hi;
        InsideIsWanted(group[0], group[i], cfg);
        if !covered { return false; }
      }
    }
    all := true;
  }

  /** If the first call covers everything asked later, every later bounded call is skipped. */
  lemma {:induction false} FirstCallSuffices(group: seq<Call>, verdicts: seq<Verdict>, cfg: Settings)
    requires group != [] && ParsedGroup(group) && ValidSettings(cfg)
    requires Explains(group, verdicts, cfg) && LaterInsideFirst(group, cfg)
    ensures verdicts[0] == Paid
    ensures forall i :: 0 < i < |group| ==> verdicts[i] == if group[i].Unmodelled? then Unbounded else Skipped
  {
    assert RightVerdict(group, verdicts, cfg, 0, verdicts[0]);
    forall i | 0 < i < |group| ensures verdicts[i] == if group[i].Unmodelled? then Unbounded else Skipped {
      assert RightVerdict(group, verdicts, cfg, i, verdicts[i]);
      if !group[i].Unmodelled? {
        forall x | Wants(group[i], cfg, x) ensures DeliveredBefore(group, verdicts, cfg, i, x) {
          assert ComesBack(group[0], cfg, x);
        }
      }
    }
  }

  /** Verdicts are determined by the calls alone. */
  lemma {:induction false} VerdictsAreUnique(group: seq<Call>, v: seq<Verdict>, w: seq<Verdict>, cfg: Settings, n: nat)
    requires ParsedGroup(group) && ValidSettings(cfg) && Explains(group, v, cfg) && Explains(group, w, cfg)
             && n <= |group|
    ensures v[..n] == w[..n]
  {
    if n > 0 {
      VerdictsAreUnique(group, v, w, cfg, n - 1);
      RightVerdictKept(group, v, w, cfg, n - 1, v[n - 1]);
      assert RightVerdict(group, w, cfg, n - 1, w[n - 1]);
      TakeSnoc(v, n - 1);
      TakeSnoc(w, n - 1);
    }
  }

  // ---- all groups ----

  datatype Tally = Tally(calls: nat, skipped: nat, selectorCalls: nat, selectorSkipped: nat,
                         defaultCalls: nat, defaultSkipped: nat, unboundedCalls: nat,
                         selectorGroups: nat, singleCall: nat, allByFirst: nat)

  function CountVerdict(verdicts: seq<Verdict>, v: Verdict): nat {
    if verdicts == [] then 0
    else CountVerdict(verdicts[..|verdicts| - 1], v) + if verdicts[|verdicts| - 1] == v then 1 else 0
  }

  lemma {:induction false} CountsAddUp(verdicts: seq<Verdict>)
    ensures CountVerdict(verdicts, Unbounded) + CountVerdict(verdicts, Paid) + CountVerdict(verdicts, Skipped)
            == |verdicts|
  {
    if verdicts != [] { CountsAddUp(verdicts[..|verdicts| - 1]); }
  }

  /** What every group and its verdicts count, summed. */
  function Sum(groups: seq<seq<Call>>, verdicts: seq<seq<Verdict>>, count: (seq<Call>, seq<Verdict>) -> nat): nat
    requires |groups| == |verdicts|
  {
    if groups == [] then 0
    else
      var n := |groups| - 1;
      Sum(groups[..n], verdicts[..n], count) + count(groups[n], verdicts[n])
  }

  lemma SumSnoc(groups: seq<seq<Call>>, verdicts: seq<seq<Verdict>>, group: seq<Call>, vs: seq<Verdict>,
                count: (seq<Call>, seq<Verdict>) -> nat)
    requires |groups| == |verdicts|
    ensures Sum(groups + [group], verdicts + [vs], count) == Sum(groups, verdicts, count) + count(group, vs)
  {
    assert (groups + [group])[..|groups|] == groups && (verdicts + [vs])[..|groups|] == verdicts;
  }

  /** A call that costs: paid, or without bounds. */
  function Costing(vs: seq<Verdict>): nat { CountVerdict(vs, Paid) + CountVerdict(vs, Unbounded) }

  function IfSelector(group: seq<Call>, n: nat): nat { if group != [] && SelectorFirst(group) then n else 0 }

  function IfDefault(group: seq<Call>, n: nat): nat { if group != [] && group[0].Default? then n else 0 }

  predicate ParsedGroups(groups: seq<seq<Call>>) {
    forall i :: 0 <= i < |groups| ==> groups[i] != [] && ParsedGroup(groups[i])
  }

  method Tallied(verdicts: seq<Verdict>, v: Verdict) returns (n: nat)
    ensures n == CountVerdict(verdicts, v)
  {
    n := 0;
    for i := 0 to |verdicts|
      invariant n == CountVerdict(verdicts[..i], v)
    {
      assert verdicts[..i + 1][..i] == verdicts[..i];
      if verdicts[i] == v { n := n + 1; }
    }
    assert verdicts[..|verdicts|] == verdicts;
  }

  /** A group that its first call alone would do for. */
  ghost function FirstDoes(cfg: Settings): (seq<Call>, seq<Verdict>) -> nat {
    (group, vs) =>
      if group != [] && ParsedGroup(group) && ValidSettings(cfg) && SelectorFirst(group)
         && (|group| == 1 || LaterInsideFirst(group, cfg)) then 1 else 0
  }

  /** Every counter is what its name says, summed over the groups. */
  ghost predicate Tallies(t: Tally, groups: seq<seq<Call>>, verdicts: seq<seq<Verdict>>, cfg: Settings)
    requires |groups| == |verdicts|
  {
    && t.calls == Sum(groups, verdicts, (group, vs) => Costing(vs))
    && t.skipped == Sum(groups, verdicts, (group, vs) => CountVerdict(vs, Skipped))
    && t.unboundedCalls == Sum(groups, verdicts, (group, vs) => CountVerdict(vs, Unbounded))
    && t.selectorCalls == Sum(groups, verdicts, (group, vs) => IfSelector(group, Costing(vs)))
    && t.selectorSkipped == Sum(groups, verdicts, (group, vs) => IfSelector(group, CountVerdict(vs, Skipped)))
    && t.defaultCalls == Sum(groups, verdicts, (group, vs) => IfDefault(group, Costing(vs)))
    && t.defaultSkipped == Sum(groups, verdicts, (group, vs) => IfDefault(group, CountVerdict(vs, Skipped)))
    && t.selectorGroups == Sum(groups, verdicts, (group, vs) => IfSelector(group, 1))
    && t.singleCall == Sum(groups, verdicts, (group, vs) => IfSelector(group, if |group| == 1 then 1 else 0))
    && t.allByFirst == Sum(groups, verdicts, FirstDoes(cfg))
  }

  /** Every call of every group is counted, as one that costs or as one that is skipped. */
  lemma {:induction false} AllCounted(groups: seq<seq<Call>>, verdicts: seq<seq<Verdict>>)
    requires |groups| == |verdicts| && forall i :: 0 <= i < |groups| ==> |groups[i]| == |verdicts[i]|
    ensures Sum(groups, verdicts, (group, vs) => Costing(vs))
            + Sum(groups, verdicts, (group, vs) => CountVerdict(vs, Skipped))
         == Sum(groups, verdicts, (group, vs) => |group|)
  {
    if groups != [] {
      var n := |groups| - 1;
      AllCounted(groups[..n], verdicts[..n]);
      CountsAddUp(verdicts[n]);
    }
  }

  function AddGroup(t: Tally, group: seq<Call>, vs: seq<Verdict>, allByFirst: bool): Tally
    requires group != []
  {
    var skipped, unbounded := CountVerdict(vs, Skipped), CountVerdict(vs, Unbounded);
    var calls := CountVerdict(vs, Paid) + unbounded;
    var t := t.(calls := t.calls + calls, skipped := t.skipped + skipped,
                unboundedCalls := t.unboundedCalls + unbounded);
    if SelectorFirst(group) then
      t.(selectorCalls := t.selectorCalls + calls, selectorSkipped := t.selectorSkipped + skipped,
         selectorGroups := t.selectorGroups + 1,
         singleCall := t.singleCall + if |group| == 1 then 1 else 0,
         allByFirst := t.allByFirst + if allByFirst || |group| == 1 then 1 else 0)
    else if group[0].Default? then
      t.(defaultCalls := t.defaultCalls + calls, defaultSkipped := t.defaultSkipped + skipped)
    else t
  }

  lemma TalliesMore(t: Tally, groups: seq<seq<Call>>, verdicts: seq<seq<Verdict>>, group: seq<Call>, vs: seq<Verdict>,
                    allByFirst: bool, cfg: Settings)
    requires |groups| == |verdicts| && group != [] && ParsedGroup(group) && ValidSettings(cfg)
    requires Tallies(t, groups, verdicts, cfg)
    requires allByFirst <==> SelectorFirst(group) && LaterInsideFirst(group, cfg)
    ensures Tallies(AddGroup(t, group, vs, allByFirst), groups + [group], verdicts + [vs], cfg)
  {
    SumSnoc(groups, verdicts, group, vs, (group, vs) => Costing(vs));
    SumSnoc(groups, verdicts, group, vs, (group, vs) => CountVerdict(vs, Skipped));
    SumSnoc(groups, verdicts, group, vs, (group, vs) => CountVerdict(vs, Unbounded));
    SumSnoc(groups, verdicts, group, vs, (group, vs) => IfSelector(group, Costing(vs)));
    SumSnoc(groups, verdicts, group, vs, (group, vs) => IfSelector(group, CountVerdict(vs, Skipped)));
    SumSnoc(groups, verdicts, group, vs, (group, vs) => IfDefault(group, Costing(vs)));
    SumSnoc(groups, verdicts, group, vs, (group, vs) => IfDefault(group, CountVerdict(vs, Skipped)));
    SumSnoc(groups, verdicts, group, vs, (group, vs) => IfSelector(group, 1));
    SumSnoc(groups, verdicts, group, vs, (group, vs) => IfSelector(group, if |group| == 1 then 1 else 0));
    SumSnoc(groups, verdicts, group, vs, FirstDoes(cfg));
  }

  /** The counters after one more group. */
  method CountGroup(before: Tally, group: seq<Call>, vs: seq<Verdict>, allByFirst: bool) returns (t: Tally)
    requires group != []
    ensures t == AddGroup(before, group, vs, allByFirst)
  {
    var paid := Tallied(vs, Paid);
    var skipped := Tallied(vs, Skipped);
    var unbounded := Tallied(vs, Unbounded);
    t := before.(calls := before.calls + paid + unbounded, skipped := before.skipped + skipped,
                 unboundedCalls := before.unboundedCalls + unbounded);
    if SelectorFirst(group) {
      t := t.(selectorCalls := t.selectorCalls + paid + unbounded, selectorSkipped := t.selectorSkipped + skipped,
              selectorGroups := t.selectorGroups + 1,
              singleCall := t.singleCall + if |group| == 1 then 1 else 0,
              allByFirst := t.allByFirst + if allByFirst || |group| == 1 then 1 else 0);
    } else if group[0].Default? {
      t := t.(defaultCalls := t.defaultCalls + paid + unbounded, defaultSkipped := t.defaultSkipped + skipped);
    }
  }

  /** The first groups are explained by their verdicts. */
  ghost predicate AllExplained(groups: seq<seq<Call>>, verdicts: seq<seq<Verdict>>, cfg: Settings)
    requires ParsedGroups(groups) && ValidSettings(cfg)
  {
    |verdicts| <= |groups| && forall i :: 0 <= i < |verdicts| ==> Explains(groups[i], verdicts[i], cfg)
  }

  /** Every call is counted once, as paid or as skipped, in total and per kind of group. */
  method Replay(groups: seq<seq<Call>>, cfg: Settings) returns (t: Tally, verdicts: seq<seq<Verdict>>)
    requires ParsedGroups(groups) && ValidSettings(cfg)
    ensures |verdicts| == |groups| && AllExplained(groups, verdicts, cfg)
    ensures Tallies(t, groups, verdicts, cfg)
  {
    t, verdicts := Tally(0, 0, 0, 0, 0, 0, 0, 0, 0, 0), [];
    ghost var done: seq<seq<Call>> := [];
    for g := 0 to |groups|
      invariant done == groups[..g] && Replayed(t, done, verdicts, cfg)
    {
      t, verdicts := ReplayNext(t, done, verdicts, groups[g], cfg);
      TakeSnoc(groups, g);
      done := done + [groups[g]];
    }
    assert groups[..|groups|] == groups;
  }

  lemma TakeSnoc<T>(s: seq<T>, i: nat)
    requires i < |s|
    ensures s[..i] + [s[i]] == s[..i + 1]
  {
  }

  /** The state between two groups. */
  ghost predicate Replayed(t: Tally, groups: seq<seq<Call>>, verdicts: seq<seq<Verdict>>, cfg: Settings)
    requires ValidSettings(cfg)
  {
    && ParsedGroups(groups) && |groups| == |verdicts| && Tallies(t, groups, verdicts, cfg)
    && forall i :: 0 <= i < |groups| ==> Explains(groups[i], verdicts[i], cfg)
  }

  method ReplayNext(before: Tally, ghost groups: seq<seq<Call>>, verdicts: seq<seq<Verdict>>, group: seq<Call>,
                    cfg: Settings)
    returns (t: Tally, more: seq<seq<Verdict>>)
    requires group != [] && ParsedGroup(group) && ValidSettings(cfg) && Replayed(before, groups, verdicts, cfg)
    ensures Replayed(t, groups + [group], more, cfg)
  {
    var vs, allByFirst := ReplayGroup(group, cfg);
    TalliesMore(before, groups, verdicts, group, vs, allByFirst, cfg);
    t := CountGroup(before, group, vs, allByFirst);
    more := verdicts + [vs];
    ExplainsMore(groups, verdicts, group, vs, cfg);
  }

  lemma ExplainsMore(groups: seq<seq<Call>>, verdicts: seq<seq<Verdict>>, group: seq<Call>, vs: seq<Verdict>,
                     cfg: Settings)
    requires ParsedGroups(groups) && |groups| == |verdicts| && group != [] && ParsedGroup(group) && ValidSettings(cfg)
    requires Explains(group, vs, cfg) && forall i :: 0 <= i < |groups| ==> Explains(groups[i], verdicts[i], cfg)
    ensures var all, more := groups + [group], verdicts + [vs];
      ParsedGroups(all) && forall i :: 0 <= i < |all| ==> Explains(all[i], more[i], cfg)
  {
  }
}
