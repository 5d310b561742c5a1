/** The functions the analysis accepts, and the loop that inlines them one after the other. */
module InlineFiles {
  import opened JsLang
  import opened InlinePlan
  import opened CallSites
  import opened Callees
  import opened InlineTheorem
  import opened Rewriting
  import opened InlineRounds
  import opened Analysis

  const MAX_ROUNDS := 100_000

  // ---- what the analysis leaves untested ----

  /** At every call of `g` the plan meets the conditions on names that are not tested. */
  predicate PlansFine(ss: seq<Stmt>, g: Name, h: Helper, reserved: set<Name>)
    decreases ss, 0
  {
    ss == [] ||
    if CallsIt(ss[0], g) then
      && Inlinable(h, FullPlan(h, ss[0].e.args, reserved).sigma)
      && PlansFine(ss[1..], g, h, FullPlan(h, ss[0].e.args, reserved).reserved)
    else PlanFine(ss[0], g, h) && PlansFine(ss[1..], g, h, reserved)
  }

  predicate PlanFine(s: Stmt, g: Name, h: Helper)
    decreases s, 2
  {
    match s
    case If(_, thn) => PlansFineIn(thn, g, h)
    case IfElse(_, thn, els) => PlansFineIn(thn, g, h) && PlansFineIn(els, g, h)
    case _ => true
  }

  predicate PlansFineIn(ss: seq<Stmt>, g: Name, h: Helper)
    decreases ss, 1
  {
    PlansFine(ss, g, h, Words(ss))
  }

  /** No name a round adds is one that the helper takes from outside. */
  lemma {:induction false} AdditionsAreNotFree(ss: seq<Stmt>, g: Name, h: Helper, reserved: set<Name>)
    requires LegalHelper(h) && PlansFine(ss, g, h, reserved)
    ensures Additions(ss, g, h, reserved) !! TrulyFree(h)
  {
    if ss != [] {
      if CallsIt(ss[0], g) {
        AddedAreNotFree(h, ss[0].e.args, reserved);
        AdditionsAreNotFree(ss[1..], g, h, FullPlan(h, ss[0].e.args, reserved).reserved);
      } else {
        AdditionsAreNotFree(ss[1..], g, h, reserved);
      }
    }
  }

  /** The analysis sees the scopes as they were. The names added meanwhile do no harm: where its test is right,
      every call can be inlined. */
  lemma {:induction false} SitesAreFine(ss: seq<Stmt>, g: Name, h: Helper, reserved: set<Name>, scope: set<Name>,
                                        added: set<Name>)
    requires LegalHelper(h) && Hygienic(h) && added !! TrulyFree(h)
    requires SitesAccepted(ss, g, h, scope) && PlansFine(ss, g, h, reserved)
    ensures Fine(ss, g, h, reserved, scope + added)
    decreases ss, 0
  {
    if ss != [] {
      if CallsIt(ss[0], g) {
        ShadowTestIsRightIffHygienic(h);
        assert TrulyFree(h) !! scope;
        SitesAreFine(ss[1..], g, h, FullPlan(h, ss[0].e.args, reserved).reserved, scope, added);
      } else {
        SiteIsFine(ss[0], g, h, scope, added);
        SitesAreFine(ss[1..], g, h, reserved, scope, added);
      }
    }
  }

  lemma {:induction false} SiteIsFine(s: Stmt, g: Name, h: Helper, scope: set<Name>, added: set<Name>)
    requires LegalHelper(h) && Hygienic(h) && added !! TrulyFree(h)
    requires SiteAccepted(s, g, h, scope) && PlanFine(s, g, h) && !CallsIt(s, g)
    ensures FineOne(s, g, h, scope + added)
    decreases s, 2
  {
    match s
    case If(_, thn) => BlockIsFine(thn, g, h, scope, added);
    case IfElse(_, thn, els) =>
      BlockIsFine(thn, g, h, scope, added);
      BlockIsFine(els, g, h, scope, added);
    case _ =>
  }

  lemma {:induction false} BlockIsFine(ss: seq<Stmt>, g: Name, h: Helper, scope: set<Name>, added: set<Name>)
    requires LegalHelper(h) && Hygienic(h) && added !! TrulyFree(h)
    requires SitesAccepted(ss, g, h, scope + Declared(ss)) && PlansFineIn(ss, g, h)
    ensures FineBlock(ss, g, h, scope + added)
    decreases ss, 1
  {
    var more := Additions(ss, g, h, Words(ss));
    AdditionsAreNotFree(ss, g, h, Words(ss));
    AdditionsAreNew(ss, g, h, Words(ss));
    SitesAreFine(ss, g, h, Words(ss), scope + Declared(ss), added + more);
    assert scope + Declared(ss) + (added + more) == scope + added + Declared(RewrittenBlock(ss, g, h));
  }

  /** What a round of the tool needs besides the analysis. */
  ghost predicate RoundClean(m: Machine, file: File, g: Name)
    requires g in file
  {
    && Hygienic(file[g]) && RoundKeepsParams(file, g)
    && (forall f :: f in file && f != g ==> PlansFineIn(file[f].body, g, file[g]))
    && forall f, vs, sh :: f in file && f != g ==>
         BlockCompares(m, g, file[g], file[f].body, StartOf(file[f], vs, sh))
  }

  lemma CandidateIsFine(m: Machine, opts: Options, file: File, g: Name)
    requires Implements(m, file) && IsCandidate(opts, file, g) && RoundClean(m, file, g)
    ensures RoundFine(m, file, g)
  {
    assert Runs(m, g, file[g]);
    forall f | f in file && f != g ensures FineBlock(file[f].body, g, file[g], Params(file[f])) {
      BlockIsFine(file[f].body, g, file[g], Params(file[f]), {});
      assert Params(file[f]) + {} == Params(file[f]);
    }
  }

  // ---- the loop ----

  lemma RoundRemoves(file: File, g: Name)
    requires g in file
    ensures Round(file, g).Keys == file.Keys - {g} && |Round(file, g)| == |file| - 1
  {
    var after := Round(file, g);
    assert after.Keys == file.Keys - {g};
    assert |after| == |after.Keys| && |file| == |file.Keys|;
  }

  /** Every name was the first candidate when its turn came. */
  ghost predicate FirstCandidates(opts: Options, file: File, names: seq<Name>) {
    forall k :: 0 <= k < |names| ==>
      var candidates := Candidates(opts, After(file, names[..k]));
      candidates != [] && candidates[0] == names[k]
  }

  lemma AnotherRound(opts: Options, file: File, names: seq<Name>, name: Name)
    requires FirstCandidates(opts, file, names) && name in After(file, names)
    requires var candidates := Candidates(opts, After(file, names)); candidates != [] && candidates[0] == name
    ensures After(file, names + [name]) == Round(After(file, names), name)
    ensures FirstCandidates(opts, file, names + [name])
  {
    var more := names + [name];
    assert more[..|names|] == names;
    forall k | 0 <= k < |more|
      ensures var candidates := Candidates(opts, After(file, more[..k])); candidates != [] && candidates[0] == more[k]
    {
      if k < |names| { assert more[..k] == names[..k]; }
    }
  }

  ghost predicate RoundsClean(m: Machine, file: File, names: seq<Name>) {
    forall k :: 0 <= k < |names| ==>
      var before := After(file, names[..k]); names[k] in before ==> RoundClean(m, before, names[k])
  }

  lemma FirstIsFine(m: Machine, opts: Options, file: File, g: Name)
    requires Implements(m, file) && Candidates(opts, file) != [] && Candidates(opts, file)[0] == g
    requires g in file ==> RoundClean(m, file, g)
    ensures g in file && RoundFine(m, file, g) && RoundKeepsParams(file, g) && Implements(m, Round(file, g))
  {
    assert g in Candidates(opts, file);
    CandidateIsFine(m, opts, file, g);
    RoundKeepsMeaning(m, file, g);
  }

  lemma FineSnoc(m: Machine, file: File, init: seq<Name>, last: Name)
    requires RoundsFine(m, file, init)
    requires last in After(file, init) ==>
      RoundFine(m, After(file, init), last) && RoundKeepsParams(After(file, init), last)
    ensures RoundsFine(m, file, init + [last])
  {
    var names := init + [last];
    forall k | 0 <= k < |names|
      ensures var before := After(file, names[..k]);
        names[k] in before ==> RoundFine(m, before, names[k]) && RoundKeepsParams(before, names[k])
    {
      assert names[..k] == if k < |init| then init[..k] else init;
    }
  }

  lemma InitOf(opts: Options, m: Machine, file: File, names: seq<Name>)
    requires names != [] && FirstCandidates(opts, file, names) && RoundsClean(m, file, names)
    ensures var init, last := names[..|names| - 1], names[|names| - 1];
      && FirstCandidates(opts, file, init) && RoundsClean(m, file, init)
      && Candidates(opts, After(file, init)) != [] && Candidates(opts, After(file, init))[0] == last
      && (last in After(file, init) ==> RoundClean(m, After(file, init), last))
  {
    var init := names[..|names| - 1];
    forall k | 0 <= k < |init| ensures init[..k] == names[..k] && init[k] == names[k] {}
  }

  /** One more candidate. */
  lemma OneMoreIsFine(m: Machine, opts: Options, file: File, names: seq<Name>, init: seq<Name>, last: Name)
    requires names == init + [last] && FirstCandidates(opts, file, names) && RoundsClean(m, file, names)
    requires RoundsFine(m, file, init) && Implements(m, After(file, init))
    ensures RoundsFine(m, file, names)
  {
    assert names[..|names| - 1] == init;
    InitOf(opts, m, file, names);
    FirstIsFine(m, opts, After(file, init), last);
    FineSnoc(m, file, init, last);
  }

  /** The whole loop: the candidates it takes, one after the other, are inlined without changing what the
      functions do that are left, as long as every round is clean. None of these calls a function that is gone. */
  lemma {:induction false} FileKeepsMeaning(m: Machine, opts: Options, file: File, names: seq<Name>)
    requires Implements(m, file) && FirstCandidates(opts, file, names) && RoundsClean(m, file, names)
    ensures RoundsFine(m, file, names) && Implements(m, After(file, names))
    ensures forall z :: z in Gone(file, names) ==> NoneCalls(After(file, names), z)
  {
    if names != [] {
      var init, last := names[..|names| - 1], names[|names| - 1];
      InitOf(opts, m, file, names);
      FileKeepsMeaning(m, opts, file, init);
      OneMoreIsFine(m, opts, file, names, init, last);
    }
    RoundsKeepMeaning(m, file, names);
  }

  // ---- which functions go ----

  /** `g` stands at `i`, may be inlined, and none before it may. */
  ghost predicate FirstAt(opts: Options, file: File, names: seq<Name>, i: nat, g: Name) {
    && i < |names| && names[i] == g && MayInline(opts, file, g)
    && forall j :: 0 <= j < i ==> !MayInline(opts, file, names[j])
  }

  /** `g` is the first function in source order that may be inlined. */
  ghost predicate IsFirst(opts: Options, file: File, g: Name) {
    exists i :: FirstAt(opts, file, opts.order, i, g)
  }

  ghost predicate EachIsFirst(opts: Options, file: File, names: seq<Name>) {
    forall k :: 0 <= k < |names| ==> IsFirst(opts, After(file, names[..k]), names[k])
  }

  lemma {:induction false} FirstCandidateIsFirst(opts: Options, file: File, names: seq<Name>) returns (i: nat)
    requires CandidatesIn(opts, file, names) != []
    ensures FirstAt(opts, file, names, i, CandidatesIn(opts, file, names)[0])
  {
    var n := |names| - 1;
    var init := names[..n];
    if CandidatesIn(opts, file, init) == [] {
      NoCandidates(opts, file, init);
      CandidateIff(opts, file, names[n]);
      forall j | 0 <= j < n ensures !MayInline(opts, file, names[j]) { assert init[j] == names[j]; }
      i := n;
    } else {
      i := FirstCandidateIsFirst(opts, file, init);
      FirstStays(opts, file, names, n, i, CandidatesIn(opts, file, init)[0]);
    }
  }

  lemma FirstStays(opts: Options, file: File, names: seq<Name>, n: nat, i: nat, g: Name)
    requires n <= |names| && FirstAt(opts, file, names[..n], i, g)
    ensures FirstAt(opts, file, names, i, g)
  {
    forall j | 0 <= j < i ensures !MayInline(opts, file, names[j]) { assert names[..n][j] == names[j]; }
  }

  lemma NoCandidates(opts: Options, file: File, names: seq<Name>)
    requires CandidatesIn(opts, file, names) == []
    ensures forall i :: 0 <= i < |names| ==> !MayInline(opts, file, names[i])
  {
    forall i | 0 <= i < |names| ensures !MayInline(opts, file, names[i]) {
      CandidateIff(opts, file, names[i]);
      assert names[i] in names && names[i] !in CandidatesIn(opts, file, names);
    }
  }

  lemma CandidatesAreFirst(opts: Options, file: File, names: seq<Name>)
    requires FirstCandidates(opts, file, names)
    ensures EachIsFirst(opts, file, names)
  {
    forall k | 0 <= k < |names| ensures IsFirst(opts, After(file, names[..k]), names[k]) {
      var i := FirstCandidateIsFirst(opts, After(file, names[..k]), opts.order);
    }
  }

  /** Nothing but `g` itself calls `g`. */
  predicate Uncalled(file: File, g: Name) {
    forall f :: f in file && f != g ==> g !in CalleesIn(file[f].body)
  }

  predicate AllReadable(file: File) { forall f :: f in file ==> Readable(file[f]) }

  lemma RoundKeepsUncalled(opts: Options, file: File, last: Name, g: Name)
    requires AllReadable(file) && IsCandidate(opts, file, last) && g in file && Uncalled(file, g)
    ensures AllReadable(Round(file, last)) && g in Round(file, last) && Uncalled(Round(file, last), g)
  {
    var h := file[last];
    forall f | f in file && f != last ensures Readable(RewrittenHelper(file[f], last, h)) {
      RewrittenIsReadable(file[f], last, h);
    }
    forall f | f in file && f != last && f != g ensures g !in CalleesIn(RewrittenHelper(file[f], last, h).body) {
      NoCallAtAll(file[f].body, last, g);
      CallsLeft(file[f].body, last, h, Words(file[f].body), g);
    }
  }

  /** A function that no other calls is not removed, whatever goes. */
  lemma {:induction false} UncalledStays(opts: Options, file: File, names: seq<Name>, g: Name)
    requires FirstCandidates(opts, file, names) && AllReadable(file) && g in file && Uncalled(file, g)
    ensures AllReadable(After(file, names)) && g in After(file, names) && Uncalled(After(file, names), g)
  {
    if names != [] {
      var init, last := names[..|names| - 1], names[|names| - 1];
      forall k | 0 <= k < |init| ensures init[..k] == names[..k] && init[k] == names[k] {}
      UncalledStays(opts, file, init, g);
      assert Candidates(opts, After(file, init))[0] in Candidates(opts, After(file, init));
      RoundKeepsUncalled(opts, After(file, init), last, g);
    }
  }

  // ---- the whole run ----

  /** Halfway through: `inlined` has gone from the file, in the order reported. */
  ghost predicate Progress(opts: Options, file: File, result: File, inlined: seq<Name>) {
    result == After(file, inlined) && FirstCandidates(opts, file, inlined) && TakenFrom(file, result, inlined)
  }

  ghost predicate TakenFrom(file: File, result: File, inlined: seq<Name>) {
    && (forall j, k :: 0 <= j < k < |inlined| ==> inlined[j] != inlined[k])
    && (forall n :: n in result <==> n in file && n !in inlined) && (forall n :: n in inlined ==> n in file)
    && |inlined| + |result| == |file|
  }

  lemma TakeOne(file: File, result: File, inlined: seq<Name>, next: Name, after: File)
    requires TakenFrom(file, result, inlined) && next in result
    requires after.Keys == result.Keys - {next} && |after| == |result| - 1
    ensures TakenFrom(file, after, inlined + [next])
  {
    forall n ensures n in after <==> n in result && n != next {}
  }

  lemma OneRound(opts: Options, file: File, result: File, inlined: seq<Name>, next: Name)
    requires Progress(opts, file, result, inlined)
    requires Candidates(opts, result) != [] && Candidates(opts, result)[0] == next
    ensures next in result && Progress(opts, file, Round(result, next), inlined + [next])
  {
    assert next in Candidates(opts, result);
    RoundRemoves(result, next);
    TakeOne(file, result, inlined, next, Round(result, next));
    AnotherRound(opts, file, inlined, next);
  }

  /** Every round removes the function it reports, the first that may be inlined; with at most 100 000 functions
      none is left at the end that may be. A function that no other calls is never removed. */
  method InlineFile(opts: Options, file: File) returns (result: File, inlined: seq<Name>)
    ensures result == After(file, inlined) && FirstCandidates(opts, file, inlined)
    ensures EachIsFirst(opts, file, inlined)
    ensures |file| <= 100_000 ==> forall g :: g in opts.order ==> !MayInline(opts, result, g)
    ensures AllReadable(file) ==> forall g :: g in file && Uncalled(file, g) ==> g in result
    ensures forall j, k :: 0 <= j < k < |inlined| ==> inlined[j] != inlined[k]
    ensures forall n :: n in result <==> n in file && n !in inlined
    ensures |inlined| + |result| == |file| && (forall n :: n in inlined ==> n in file)
  {
    result, inlined := file, [];
    var round := 0;
    while round < MAX_ROUNDS
      invariant round == |inlined| <= MAX_ROUNDS && Progress(opts, file, result, inlined)
    {
      var candidates := CollectCandidates(opts, result);
      if |candidates| == 0 {
        LoopEnds(opts, file, result, inlined);
        return;
      }
      var next := candidates[0];
      OneRound(opts, file, result, inlined, next);
      result := Round(result, next);
      inlined := inlined + [next];
      round := round + 1;
    }
    if Candidates(opts, result) != [] { CandidateIsThere(opts, result); }
    LoopEnds(opts, file, result, inlined);
  }

  lemma NothingLeft(opts: Options, result: File)
    ensures Candidates(opts, result) == [] ==> forall g :: g in opts.order ==> !MayInline(opts, result, g)
  {
    if Candidates(opts, result) == [] { NoCandidates(opts, result, opts.order); }
  }

  lemma AllUncalledStay(opts: Options, file: File, result: File, inlined: seq<Name>)
    requires Progress(opts, file, result, inlined)
    ensures AllReadable(file) ==> forall g :: g in file && Uncalled(file, g) ==> g in result
  {
    CandidatesAreFirst(opts, file, inlined);
    if AllReadable(file) {
      forall g | g in file && Uncalled(file, g) ensures g in result { UncalledStays(opts, file, inlined, g); }
    }
  }

  lemma LoopEnds(opts: Options, file: File, result: File, inlined: seq<Name>)
    requires Progress(opts, file, result, inlined)
    ensures EachIsFirst(opts, file, inlined)
    ensures Candidates(opts, result) == [] ==> forall g :: g in opts.order ==> !MayInline(opts, result, g)
    ensures AllReadable(file) ==> forall g :: g in file && Uncalled(file, g) ==> g in result
  {
    CandidatesAreFirst(opts, file, inlined);
    NothingLeft(opts, result);
    AllUncalledStay(opts, file, result, inlined);
  }

  /** Where there is a candidate, there is a function. */
  lemma CandidateIsThere(opts: Options, file: File)
    requires Candidates(opts, file) != []
    ensures |file| > 0
  {
    assert Candidates(opts, file)[0] in Candidates(opts, file);
    assert Candidates(opts, file)[0] in file.Keys;
  }
}
