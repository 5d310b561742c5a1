/** The main results about the inliner in strict mode. */
module InlineTheorem {
  import opened Basics
  import opened JsLang
  import opened JsText
  import opened GuardInversion
  import opened Renaming
  import opened CallerFrames
  import opened InlinePlan
  import opened InlineCorrect
  import opened EarlyErrors
  import opened CallSites

  // ---- the plan ----

  /** How the plan's final replacements extend those for the parameters. */
  ghost predicate Extends(h: Helper, start: Plan, plan: Plan) {
    && TempsDeclared(start) && Injective(start.sigma)
    && (forall y :: y in start.sigma <==> y in h.params && Uses(h, y))
    && (forall y :: y in start.sigma ==> y in plan.sigma && plan.sigma[y] == start.sigma[y])
    && (forall y :: y in plan.sigma && y !in start.sigma ==> y in Locals(h) && plan.sigma[y].Var?)
    && (Guards(h.body) != [] ==> plan == start)
    && (Guards(h.body) == [] ==> OneToOne(Locals(h), plan.sigma))
    && (Guards(h.body) == [] ==> forall y :: y in Locals(h) ==> Target(y, plan.sigma) in plan.reserved - start.reserved)
  }

  ghost predicate Injective(sigma: Subst) {
    forall x, y :: x in sigma && y in sigma && sigma[x].Var? && sigma[x] == sigma[y] ==> x == y
  }

  lemma PlanExtends(h: Helper, args: seq<Expr>, reserved: set<Name>)
    requires LegalHelper(h)
    ensures Extends(h, PlanParams(h, args, |h.params|, reserved), FullPlan(h, args, reserved))
  {
    var start, tail := PlanParams(h, args, |h.params|, reserved), Tail(h.body);
    PlanParamsFacts(h, args, |h.params|, reserved);
    assert h.params[..|h.params|] == h.params && tail[..|tail|] == tail;
    if Guards(h.body) == [] { PlanLocalsFacts(tail, |tail|, start); }
  }

  /** Parameters and locals get replacements of their own. */
  lemma PlanIsInjective(h: Helper, start: Plan, plan: Plan)
    requires LegalHelper(h) && Extends(h, start, plan)
    ensures Injective(plan.sigma)
  {
    forall x, y | x in plan.sigma && y in plan.sigma && plan.sigma[x].Var? && plan.sigma[x] == plan.sigma[y]
      ensures x == y
    {
      assert x !in start.sigma ==> Target(x, plan.sigma) !in start.reserved;
      assert y !in start.sigma ==> Target(y, plan.sigma) !in start.reserved;
    }
  }

  /** What replaces a name is what no other local ends up as. */
  lemma ReplacementsDiffer(h: Helper, start: Plan, plan: Plan, x: Name, t: Name, y: Name)
    requires LegalHelper(h) && Extends(h, start, plan) && Guards(h.body) == []
    requires x in plan.sigma && plan.sigma[x] == Var(t) && y in Locals(h)
    ensures Target(y, plan.sigma) == t ==> x == y
  {
    assert x in start.sigma ==> t in start.reserved;
    assert Target(y, plan.sigma) !in start.reserved;
  }

  /** A name that keeps its own name is not the replacement of another. */
  lemma ReplacementsStandApart(h: Helper, start: Plan, plan: Plan, x: Name, t: Name)
    requires LegalHelper(h) && Extends(h, start, plan) && NoClash(h, plan.sigma)
    requires x in plan.sigma && plan.sigma[x] == Var(t) && t in OuterNames(h)
    ensures t in plan.sigma
  {
    if t in Locals(h) && Guards(h.body) == [] { ReplacementsDiffer(h, start, plan, x, t, t); }
  }

  lemma {:induction false} PlanIsUncaptured(h: Helper, start: Plan, plan: Plan)
    requires LegalHelper(h) && Extends(h, start, plan) && NoClash(h, plan.sigma)
    ensures Uncaptured(plan.sigma, OuterNames(h)) && Primary(plan.sigma)
  {
    PlanIsInjective(h, start, plan);
    forall x | x in plan.sigma && plan.sigma[x].Var? ensures plan.sigma[x].x !in OuterNames(h) - plan.sigma.Keys {
      if plan.sigma[x].x in OuterNames(h) { ReplacementsStandApart(h, start, plan, x, plan.sigma[x].x); }
    }
  }

  // ---- the frames ----

  /** A helper's frame on entry: its parameters and its uninitialised locals. */
  lemma EnteredFrame(h: Helper, vs: seq<Value>, sh: Shared, x: Name)
    requires LegalHelper(h)
    ensures var s := Entered(h, vs, sh).scopes;
      && (x in Locals(h) ==> Find(s, x) == Some(Uninit))
      && (forall j :: 0 <= j < |h.params| && h.params[j] == x ==> Find(s, x) == Some(Init(ArgAt(vs, j))))
      && (x !in Locals(h) && x !in h.params ==> Find(s, x).None?)
  {
    BindKeys(h.params, vs);
    forall j | 0 <= j < |h.params| && h.params[j] == x
      ensures x in Bind(h.params, vs) && Bind(h.params, vs)[x] == Init(ArgAt(vs, j))
    {
      BindAt(h.params, vs, j);
    }
  }

  function HoistedLocals(h: Helper, sigma: Subst): set<Name> {
    if Guards(h.body) == [] then set y | y in Locals(h) :: Target(y, sigma) else {}
  }

  /** The block once the arguments have been evaluated to `vs`. */
  ghost predicate Ready(h: Helper, start: Plan, plan: Plan, hoisted: set<Name>, vs: seq<Value>, st: State,
                        pads: seq<Env>, own: bool) {
    && Extends(h, start, plan) && Suitable(h, plan.sigma)
    && hoisted == Declared(start.prefix) + HoistedLocals(h, plan.sigma)
    && Fitting(st.scopes, pads) && Loaded(pads[0], hoisted, h, start, |h.params|, vs)
    && Unshadowed(h, Pad(st.scopes, pads), st.sh, own)
  }

  function FrameContext(h: Helper, sigma: Subst, outer: set<Name>, own: bool): Context {
    Context([], OuterNames(h), sigma, outer, true, own)
  }

  /** Every name the code resolves in the block's frame means there what it means in the helper. */
  lemma OuterNameRelated(h: Helper, start: Plan, plan: Plan, hoisted: set<Name>, vs: seq<Value>, st: State,
                         pads: seq<Env>, own: bool, x: Name)
    requires Ready(h, start, plan, hoisted, vs, st, pads, own) && x in OuterNames(h)
    ensures RelatedName(x, plan.sigma, Entered(h, vs, st.sh).scopes, Pad(st.scopes, pads), st.sh.outer.Keys, !own)
  {
    EnteredFrame(h, vs, st.sh, x);
    if x in h.params {
      var j :| 0 <= j < |h.params| && h.params[j] == x;
      assert Stands(plan.sigma[x], pads[0], ArgAt(vs, j));
      if plan.sigma[x].Var? { FindAdded(st.scopes, pads, plan.sigma[x].x); }
    } else if x in Locals(h) {
      LocalRelated(h, start, plan, hoisted, vs, st, pads, x);
    } else {
      assert x in TrulyFree(h) && x !in plan.sigma;
      BoundIsFound(Pad(st.scopes, pads), x);
    }
  }

  /** A local of a guardless tail is uninitialised on both sides, under its own or its new name. */
  lemma LocalRelated(h: Helper, start: Plan, plan: Plan, hoisted: set<Name>, vs: seq<Value>, st: State, pads: seq<Env>,
                     x: Name)
    requires LegalHelper(h) && Extends(h, start, plan) && Guards(h.body) == [] && x in Locals(h)
    requires hoisted == Declared(start.prefix) + HoistedLocals(h, plan.sigma)
    requires Fitting(st.scopes, pads) && Loaded(pads[0], hoisted, h, start, |h.params|, vs)
    ensures RelatedName(x, plan.sigma, Entered(h, vs, st.sh).scopes, Pad(st.scopes, pads), {}, false)
  {
    EnteredFrame(h, vs, st.sh, x);
    var t := Target(x, plan.sigma);
    assert t in hoisted && t !in Declared(start.prefix);
    FindAdded(st.scopes, pads, t);
  }

  lemma AllRelated(names: set<Name>, sigma: Subst, h: Scopes, i: Scopes, outer: set<Name>, own: bool)
    requires Uncaptured(sigma, names)
    requires forall x :: x in names ==> RelatedName(x, sigma, h, i, outer, !own)
    ensures Context([], names, sigma, outer, true, own).Fits(h, i)
  {
  }

  /** The helper's frame on entry and the block's frame after the prefix are related. */
  lemma FramesAlike(h: Helper, start: Plan, plan: Plan, hoisted: set<Name>, vs: seq<Value>, st: State, pads: seq<Env>,
                    own: bool)
    requires Ready(h, start, plan, hoisted, vs, st, pads, own)
    ensures var c := FrameContext(h, plan.sigma, st.sh.outer.Keys, own);
      Alike(c, Entered(h, vs, st.sh), PadState(st, pads)) && c.Live() == c.sigma
  {
    var h', i, outer := Entered(h, vs, st.sh).scopes, Pad(st.scopes, pads), st.sh.outer.Keys;
    PlanIsUncaptured(h, start, plan);
    forall x | x in OuterNames(h) ensures RelatedName(x, plan.sigma, h', i, outer, !own) {
      OuterNameRelated(h, start, plan, hoisted, vs, st, pads, own, x);
    }
    AllRelated(OuterNames(h), plan.sigma, h', i, outer, own);
  }

  lemma SeesOuterNames(c: Context, xs: set<Name>)
    requires c.layers == [] && xs <= c.names
    ensures c.SeesAll(xs)
  {
  }

  // ---- guardless helpers ----

  /** The tail runs in the block itself, with its colliding locals renamed. */
  lemma {:induction false} GuardlessTail(m: Machine, h: Helper, start: Plan, plan: Plan, hoisted: set<Name>,
                                         vs: seq<Value>, st: State, pads: seq<Env>, own: bool)
    requires Ready(h, start, plan, hoisted, vs, st, pads, own) && NoInnerCapture(h, plan.sigma) && Guards(h.body) == []
    ensures Replies(ReplyOf(Exec(m, h.body, Entered(h, vs, st.sh), true)),
                    Exec(m, SubstStmts(Tail(h.body), plan.sigma), PadState(st, pads), own))
  {
    var a, c := Entered(h, vs, st.sh), FrameContext(h, plan.sigma, st.sh.outer.Keys, own);
    FramesAlike(h, start, plan, hoisted, vs, st, pads, own);
    SeesOuterNames(c, Mentions(h.body));
    ExecAlike(m, h.body, c, a, PadState(st, pads));
    ReturnFreeExec(m, h.body, a, true);
  }

  lemma {:induction false} TailAssignsHoisted(h: Helper, start: Plan, plan: Plan, hoisted: set<Name>, scopes: Scopes,
                                              pads: seq<Env>)
    requires Extends(h, start, plan) && Inlinable(h, plan.sigma) && Guards(h.body) == []
    requires Fitting(scopes, pads) && TrulyFree(h) !! Bound(Pad(scopes, pads))
    requires HoistedLocals(h, plan.sigma) <= hoisted <= pads[0].Keys
    ensures AllHarmless(Alters(SubstStmts(Tail(h.body), plan.sigma)), Pad(scopes, pads), 0, hoisted)
  {
    var tail := Tail(h.body);
    PlanIsUncaptured(h, start, plan);
    AltersOfSubst(tail, plan.sigma);
    AltersAreMentioned(tail);
    forall y | y in Alters(SubstStmts(tail, plan.sigma)) ensures Harmless(y, Pad(scopes, pads), 0, hoisted) {
      var x :| x in Alters(tail) && y == Target(x, plan.sigma);
      if x !in Locals(h) { assert x in TrulyFree(h) && x !in plan.sigma; }
    }
  }

  // ---- guarded helpers ----

  /** The tail runs in a block of its own, under the inverted condition. */
  lemma {:induction false} GuardedTail(m: Machine, h: Helper, start: Plan, plan: Plan, hoisted: set<Name>,
                                       vs: seq<Value>, st: State, pads: seq<Env>, own: bool)
    requires Ready(h, start, plan, hoisted, vs, st, pads, own) && NoInnerCapture(h, plan.sigma) && Guards(h.body) != []
    requires ComparableRun(m, Guards(h.body), map[], Entered(h, vs, st.sh), true)
    ensures var cond := Parse(CombineGuards(Guards(h.body), plan.sigma));
      && cond.Some?
      && Replies(ReplyOf(Exec(m, h.body, Entered(h, vs, st.sh), true)),
                 Exec(m, [If(cond.value, SubstStmts(Tail(h.body), plan.sigma))], PadState(st, pads), own))
  {
    var guards, a, b := Guards(h.body), Entered(h, vs, st.sh), PadState(st, pads);
    GuardsAgree(m, h, start, plan, hoisted, vs, st, pads, own);
    BodyRun(m, h.body, a, true);
    var ra, rb := RunGuards(m, guards, map[], a, true), RunGuards(m, guards, plan.sigma, b, own);
    var cond := Parse(CombineGuards(guards, plan.sigma));
    var tail := SubstStmts(Tail(h.body), plan.sigma);
    if ra.Passed? {
      TailBlock(m, h, plan.sigma, st.sh.outer.Keys, own, ra.st, rb.st);
    }
    OneIf(m, cond.value, tail, b, own);
  }

  lemma OneIf(m: Machine, c: Expr, thn: seq<Stmt>, st: State, own: bool)
    ensures var o, done := Eval(m, c, st, own), Exec(m, [If(c, thn)], st, own);
      && (o.Threw? ==> done == Thrown(o.err, o.st))
      && (o.Val? ==> done == if Truthy(o.v) then ExecBlock(m, thn, o.st, own) else Normal(o.st))
  {
    assert [If(c, thn)][1..] == [];
  }

  /** Both sides run the guards alike, the helper's frame stays as it was on entry, and the block tests
      with the printed condition what the helper tests with its guards. */
  lemma {:induction false} GuardsAgree(m: Machine, h: Helper, start: Plan, plan: Plan, hoisted: set<Name>,
                                       vs: seq<Value>, st: State, pads: seq<Env>, own: bool)
    requires Ready(h, start, plan, hoisted, vs, st, pads, own) && Guards(h.body) != []
    requires ComparableRun(m, Guards(h.body), map[], Entered(h, vs, st.sh), true)
    ensures var guards, a, b := Guards(h.body), Entered(h, vs, st.sh), PadState(st, pads);
      var ra, rb := RunGuards(m, guards, map[], a, true), RunGuards(m, guards, plan.sigma, b, own);
      var cond := Parse(CombineGuards(guards, plan.sigma));
      && SameRun(FrameContext(h, plan.sigma, st.sh.outer.Keys, own), ra, rb)
      && ra.st.scopes == a.scopes && rb.st.scopes == b.scopes
      && cond.Some? && TestsLike(rb, Eval(m, cond.value, b, own))
  {
    var guards, a, b := Guards(h.body), Entered(h, vs, st.sh), PadState(st, pads);
    var c := FrameContext(h, plan.sigma, st.sh.outer.Keys, own);
    FramesAlike(h, start, plan, hoisted, vs, st, pads, own);
    PlanIsUncaptured(h, start, plan);
    SeesOuterNames(c, GuardNames(guards));
    GuardsAlike(m, guards, c, a, b);
    AllParsedGuards(guards);
    CombinedGuardsMeaning(m, guards, plan.sigma, b, own);
    GuardsAssignNothing(h, plan.sigma, vs, st, pads);
    GuardsKeepScopes(m, guards, map[], a, true);
    GuardsKeepScopes(m, guards, plan.sigma, b, own);
  }

  lemma GuardsAssignNothing(h: Helper, sigma: Subst, vs: seq<Value>, st: State, pads: seq<Env>)
    requires Suitable(h, sigma) && Fitting(st.scopes, pads) && TrulyFree(h) !! Bound(Pad(st.scopes, pads))
    requires forall y :: y in sigma ==> y in h.params || y in Locals(h)
    ensures forall x :: x in ArgWrites(Guards(h.body)) ==>
      Find(Entered(h, vs, st.sh).scopes, x).None? && Find(Pad(st.scopes, pads), Target(x, sigma)).None?
  {
    ArgWritesAreNames(Guards(h.body));
    forall x | x in ArgWrites(Guards(h.body))
      ensures Find(Entered(h, vs, st.sh).scopes, x).None? && Find(Pad(st.scopes, pads), Target(x, sigma)).None?
    {
      EnteredFrame(h, vs, st.sh, x);
      assert x in TrulyFree(h) && x !in sigma;
      BoundIsFound(Pad(st.scopes, pads), x);
    }
  }

  lemma {:induction false} AllParsedGuards(guards: seq<Expr>)
    requires AllParsed(guards)
    ensures AllGuardsParsed(guards)
  {
    if guards != [] { AllParsedGuards(guards[1..]); }
  }

  /** The tail as a block of its own, entered when every guard has let the call pass. */
  lemma {:induction false} TailBlock(m: Machine, h: Helper, sigma: Subst, outer: set<Name>, own: bool, a: State,
                                     b: State)
    requires Inlinable(h, sigma) && Guards(h.body) != [] && sigma.Keys !! Locals(h)
    requires Alterable(Alters(Tail(h.body)), sigma)
    requires Alike(FrameContext(h, sigma, outer, own), a, b)
    requires a.scopes.Inner? && a.scopes.env == Hoisted(Locals(h))
    ensures Replies(ReplyOf(Exec(m, Tail(h.body), a, true)), ExecBlock(m, SubstStmts(Tail(h.body), sigma), b, own))
  {
    var tail, c := Tail(h.body), FrameContext(h, sigma, outer, own);
    var inner := c.(layers := [Locals(h)]);
    assert inner.layers == [Locals(h)] + c.layers && inner.layers[1..] == [];
    assert c.Live() == sigma && sigma - Locals(h) == sigma;
    SeesOuterNames(c, FreeInBlock(tail));
    SeesInside(tail, c, inner);
    SubstKeepsDeclared(tail, sigma);
    var b' := b.(scopes := Push(b.scopes, Locals(h)));
    forall x | x in c.names ensures RelatedName(x, sigma, a.scopes.up, b.scopes, outer, !own) {
      assert RelatedName(x, sigma, a.scopes, b.scopes, outer, !own);
      assert x !in Locals(h);
    }
    assert b'.scopes.env == a.scopes.env && a.scopes.env.Keys == Locals(h);
    assert Related([], c.names, sigma, a.scopes.up, b.scopes, outer, !own);
    assert Alike(inner, a, b');
    ExecAlike(m, tail, inner, a, b');
    ReturnFreeExec(m, tail, a, true);
  }

  /** After the guards nothing in the caller's frame is assigned. */
  lemma {:induction false} TailBlockAssignsNothing(h: Helper, start: Plan, plan: Plan, scopes: Scopes)
    requires Extends(h, start, plan) && Inlinable(h, plan.sigma) && Guards(h.body) != []
    requires TrulyFree(h) !! Bound(scopes)
    ensures AllHarmless(AlteredByBlock(SubstStmts(Tail(h.body), plan.sigma)), scopes, 0, {})
  {
    var tail := Tail(h.body);
    PlanIsUncaptured(h, start, plan);
    assert plan.sigma - Declared(tail) == plan.sigma;
    AlteredByBlockOfSubst(tail, plan.sigma);
    AltersAreMentioned(tail);
    forall y | y in AlteredByBlock(SubstStmts(tail, plan.sigma)) ensures Harmless(y, scopes, 0, {}) {
      var x :| x in AlteredByBlock(tail) && y == Target(x, plan.sigma);
      assert x in TrulyFree(h) && x !in plan.sigma;
    }
  }

  // ---- both kinds ----

  /** The names the inlined block declares, none of which the target block used before. */
  lemma {:induction false} InlinedDeclares(h: Helper, args: seq<Expr>, reserved: set<Name>)
    requires LegalHelper(h)
    ensures var plan, start := FullPlan(h, args, reserved), PlanParams(h, args, |h.params|, reserved);
      var r := ReplacementOf(h, plan);
      && r.prefix == start.prefix && Printable(r)
      && Declared(Inlined(r)) == Declared(start.prefix) + HoistedLocals(h, plan.sigma)
      && Declared(Inlined(r)) <= plan.reserved - reserved
      && reserved <= plan.reserved
  {
    var start, plan, tail := PlanParams(h, args, |h.params|, reserved), FullPlan(h, args, reserved), Tail(h.body);
    PlanParamsFacts(h, args, |h.params|, reserved);
    assert h.params[..|h.params|] == h.params && tail[..|tail|] == tail;
    PlanExtends(h, args, reserved);
    AllParsedGuards(Guards(h.body));
    if Guards(h.body) != [] {
      CombinedGuardsParse(Guards(h.body), plan.sigma);
      var r := ReplacementOf(h, plan);
      DeclaredSnoc(start.prefix, If(Parse(r.condition.value).value, r.tail));
    } else {
      PlanLocalsFacts(tail, |tail|, start);
      DeclaredAppend(start.prefix, SubstStmts(tail, plan.sigma));
      DeclaredOfSubst(tail, plan.sigma);
    }
  }

  /** It declares none of them twice, nor does any block inside. So it has an early error exactly where one
      of them is a parameter of the function whose body it becomes part of. */
  lemma {:induction false} InlinedIsLegal(h: Helper, args: seq<Expr>, reserved: set<Name>, params: set<Name>)
    requires LegalHelper(h)
    ensures var r := ReplacementOf(h, FullPlan(h, args, reserved));
      && Printable(r) && LegalBlock(Inlined(r))
      && (LegalAmong(Inlined(r), params) <==> Declared(Inlined(r)) !! params)
  {
    var start, plan, tail := PlanParams(h, args, |h.params|, reserved), FullPlan(h, args, reserved), Tail(h.body);
    var r := ReplacementOf(h, plan);
    InlinedDeclares(h, args, reserved);
    PlanExtends(h, args, reserved);
    PrefixIsLegal(h, args, |h.params|, reserved);
    SubstIsLegal(tail, plan.sigma);
    if Guards(h.body) == [] {
      DeclaredOfSubst(tail, plan.sigma);
    } else {
      assert Positive(r)[1..] == [];
    }
    LegalAppend(r.prefix, Positive(r));
  }

  /** Statements that reply as the helper's body does and assign nothing but the names added for them. */
  ghost predicate DoesTheBody(m: Machine, h: Helper, hoisted: set<Name>, vs: seq<Value>, st: State, pads: seq<Env>,
                              own: bool, ss: seq<Stmt>)
    requires Fitting(st.scopes, pads)
  {
    var done := Exec(m, ss, PadState(st, pads), own);
    Replies(RunHelper(m, h, vs, st.sh), done) && Kept(Pad(st.scopes, pads), done.st.scopes, 0, hoisted)
  }

  lemma HelperRuns(m: Machine, h: Helper, vs: seq<Value>, sh: Shared)
    ensures RunHelper(m, h, vs, sh) == ReplyOf(Exec(m, h.body, Entered(h, vs, sh), true))
  {
    GuardsDeclareNothing(h.body);
    ExecKeepsLayout(m, h.body, Entered(h, vs, sh), true);
  }

  lemma {:induction false} GuardlessBody(m: Machine, h: Helper, start: Plan, plan: Plan, hoisted: set<Name>,
                                         vs: seq<Value>, st: State, pads: seq<Env>, own: bool)
    requires Ready(h, start, plan, hoisted, vs, st, pads, own) && NoInnerCapture(h, plan.sigma) && Guards(h.body) == []
    ensures DoesTheBody(m, h, hoisted, vs, st, pads, own, SubstStmts(Tail(h.body), plan.sigma))
  {
    HelperRuns(m, h, vs, st.sh);
    GuardlessTail(m, h, start, plan, hoisted, vs, st, pads, own);
    TailAssignsHoisted(h, start, plan, hoisted, st.scopes, pads);
    ExecKeeps(m, SubstStmts(Tail(h.body), plan.sigma), PadState(st, pads), own, 0, hoisted);
  }

  lemma {:induction false} GuardedBody(m: Machine, h: Helper, start: Plan, plan: Plan, hoisted: set<Name>,
                                       vs: seq<Value>, st: State, pads: seq<Env>, own: bool)
    requires Ready(h, start, plan, hoisted, vs, st, pads, own) && NoInnerCapture(h, plan.sigma) && Guards(h.body) != []
    requires ComparableRun(m, Guards(h.body), map[], Entered(h, vs, st.sh), true)
    ensures var cond := Parse(CombineGuards(Guards(h.body), plan.sigma));
      cond.Some?
        && DoesTheBody(m, h, hoisted, vs, st, pads, own, [If(cond.value, SubstStmts(Tail(h.body), plan.sigma))])
  {
    HelperRuns(m, h, vs, st.sh);
    GuardedTail(m, h, start, plan, hoisted, vs, st, pads, own);
    GuardedKeeps(m, h, start, plan, hoisted, vs, st, pads, own);
  }

  /** From the end of the prefix on, the block does what the helper's body does. */
  lemma {:induction false} BodiesAgree(m: Machine, h: Helper, start: Plan, plan: Plan, hoisted: set<Name>,
                                       vs: seq<Value>, st: State, pads: seq<Env>, own: bool) returns (left: Env)
    requires Ready(h, start, plan, hoisted, vs, st, pads, own) && NoInnerCapture(h, plan.sigma)
    requires Printable(ReplacementOf(h, plan))
    requires ComparableRun(m, Guards(h.body), map[], Entered(h, vs, st.sh), true)
    ensures var done := Exec(m, Positive(ReplacementOf(h, plan)), PadState(st, pads), own);
      && Replies(RunHelper(m, h, vs, st.sh), done)
      && Refilled(pads[0], left, hoisted) && Fitting(st.scopes, [left] + pads[1..])
      && done.st.scopes == Pad(st.scopes, [left] + pads[1..])
  {
    var ss := Positive(ReplacementOf(h, plan));
    assert DoesTheBody(m, h, hoisted, vs, st, pads, own, ss) by {
      if Guards(h.body) == [] {
        GuardlessBody(m, h, start, plan, hoisted, vs, st, pads, own);
      } else {
        GuardedBody(m, h, start, plan, hoisted, vs, st, pads, own);
      }
    }
    left := KeptIsPad(st.scopes, pads, Exec(m, ss, PadState(st, pads), own).st.scopes, hoisted);
  }

  lemma {:induction false} GuardedKeeps(m: Machine, h: Helper, start: Plan, plan: Plan, hoisted: set<Name>,
                                        vs: seq<Value>, st: State, pads: seq<Env>, own: bool)
    requires Ready(h, start, plan, hoisted, vs, st, pads, own) && NoInnerCapture(h, plan.sigma) && Guards(h.body) != []
    requires ComparableRun(m, Guards(h.body), map[], Entered(h, vs, st.sh), true)
    ensures var cond := Parse(CombineGuards(Guards(h.body), plan.sigma));
      && cond.Some?
      && var block := [If(cond.value, SubstStmts(Tail(h.body), plan.sigma))];
         Kept(Pad(st.scopes, pads), Exec(m, block, PadState(st, pads), own).st.scopes, 0, hoisted)
  {
    var guards, b, tail := Guards(h.body), PadState(st, pads), SubstStmts(Tail(h.body), plan.sigma);
    var cond := Parse(CombineGuards(guards, plan.sigma));
    GuardsAgree(m, h, start, plan, hoisted, vs, st, pads, own);
    OneIf(m, cond.value, tail, b, own);
    var o := Eval(m, cond.value, b, own);
    assert o.st.scopes == b.scopes;
    if o.Val? && Truthy(o.v) {
      TailBlockAssignsNothing(h, start, plan, b.scopes);
      BlockKeeps(m, tail, o.st, own, 0, {});
      KeptMore(b.scopes, ExecBlock(m, tail, o.st, own).st.scopes, hoisted);
    } else {
      KeptRefl(b.scopes, 0, hoisted, Depth(b.scopes));
    }
  }

  lemma KeptMore(s: Scopes, t: Scopes, d: set<Name>)
    requires Kept(s, t, 0, {})
    ensures Kept(s, t, 0, d)
  {
    assert s.env - {} == s.env && t.env - {} == t.env;
  }

  /** Called with these arguments, the helper's relational guards meet comparable operands. */
  ghost predicate ArgumentsCompare(m: Machine, h: Helper, args: seq<Expr>, st: State, own: bool) {
    var passed := EvalArgs(m, args, st, own);
    passed.Val? ==> ComparableRun(m, Guards(h.body), map[], Entered(h, passed.v, passed.st.sh), true)
  }

  /** What the block needs of the place it is put in: its names are added there, uninitialised. */
  ghost predicate Placed(h: Helper, args: seq<Expr>, plan: Plan, st: State, pads: seq<Env>, own: bool) {
    && Printable(ReplacementOf(h, plan))
    && BlockFor(args, Declared(Inlined(ReplacementOf(h, plan))), st, pads)
    && Unshadowed(h, Pad(st.scopes, pads), st.sh, own)
  }

  /** The same completion, in a frame with names added. */
  predicate SameButAdded(c: Completion, d: Completion, pads: seq<Env>) {
    match c
    case Normal(st) => Fitting(st.scopes, pads) && d == Normal(PadState(st, pads))
    case Returned(st) => Fitting(st.scopes, pads) && d == Returned(PadState(st, pads))
    case Thrown(err, st) => d.Thrown? && d.err == err && d.st.sh == st.sh
  }

  lemma StillUnshadowed(m: Machine, h: Helper, args: seq<Expr>, st: State, pads: seq<Env>, filled: Env, own: bool)
    requires Fitting(st.scopes, pads) && Unshadowed(h, Pad(st.scopes, pads), st.sh, own) && filled.Keys == pads[0].Keys
    ensures var st' := EvalArgs(m, args, st, own).st;
      Fitting(st'.scopes, [filled] + pads[1..]) && Unshadowed(h, Pad(st'.scopes, [filled] + pads[1..]), st'.sh, own)
  {
    var st' := EvalArgs(m, args, st, own).st;
    EvalArgsKeepsLayout(m, args, st, own);
    FittingShape(st.scopes, st'.scopes, pads);
    RefillFits(st'.scopes, pads, filled);
    BoundPad(st.scopes, pads);
    BoundPad(st'.scopes, [filled] + pads[1..]);
    ShapeBound(st.scopes, st'.scopes);
  }

  /** The prefix has done what evaluating the arguments does, and the rest of the block can run. */
  ghost predicate PrefixDone(m: Machine, h: Helper, args: seq<Expr>, reserved: set<Name>, st: State, pads: seq<Env>,
                             own: bool, filled: Env)
    requires Fitting(st.scopes, pads) && Printable(ReplacementOf(h, FullPlan(h, args, reserved)))
  {
    var start, plan := PlanParams(h, args, |h.params|, reserved), FullPlan(h, args, reserved);
    var r := ReplacementOf(h, plan);
    var done := Exec(m, r.prefix, PadState(st, pads), own);
    && Refilled(pads[0], filled, Declared(Inlined(r)))
    && match EvalArgs(m, args, st, own)
       case Threw(err, st') => done.Thrown? && done.err == err && done.st.sh == st'.sh
       case Val(vs, st') =>
         && Ready(h, start, plan, Declared(Inlined(r)), vs, st', [filled] + pads[1..], own)
         && done == Normal(PadState(st', [filled] + pads[1..]))
  }

  lemma {:induction false} ArgumentsReady(m: Machine, h: Helper, args: seq<Expr>, reserved: set<Name>, st: State,
                                          pads: seq<Env>, own: bool) returns (filled: Env)
    requires |args| <= |h.params| && Suitable(h, FullPlan(h, args, reserved).sigma)
    requires Placed(h, args, FullPlan(h, args, reserved), st, pads, own)
    ensures PrefixDone(m, h, args, reserved, st, pads, own, filled)
  {
    InlinedDeclares(h, args, reserved);
    PlanExtends(h, args, reserved);
    assert args[..|args|] == args;
    var hoisted := Declared(Inlined(ReplacementOf(h, FullPlan(h, args, reserved))));
    filled := PrefixRun(m, h, args, |h.params|, reserved, hoisted, st, pads, own);
    StillUnshadowed(m, h, args, st, pads, filled, own);
  }

  /** In strict mode, for every helper and every call of it in every caller: the printed condition parses,
      and the block that replaces the call evaluates the same arguments in the same order, makes the same
      primitive calls, throws the same errors, and leaves the same shared store and the same caller's
      frame as the call did, up to the names it adds. It may stand there exactly when none of these is one
      of `params`, the parameters of the function whose body is the target block. */
  lemma {:induction false} BlockDoesTheCall(m: Machine, h: Helper, args: seq<Expr>, reserved: set<Name>, st: State,
                                            pads: seq<Env>, own: bool, params: set<Name>) returns (left: Env)
    requires |args| <= |h.params| && Inlinable(h, FullPlan(h, args, reserved).sigma)
    requires Placed(h, args, FullPlan(h, args, reserved), st, pads, own)
    requires ArgumentsCompare(m, h, args, st, own)
    ensures var r := ReplacementOf(h, FullPlan(h, args, reserved));
      var call, block := CallHelper(m, h, args, st, own), Exec(m, Inlined(r), PadState(st, pads), own);
      && Refilled(pads[0], left, Declared(Inlined(r))) && SameButAdded(call, block, [left] + pads[1..])
      && (LegalAmong(Inlined(r), params) <==> Declared(Inlined(r)) !! params)
  {
    var start, plan := PlanParams(h, args, |h.params|, reserved), FullPlan(h, args, reserved);
    var r := ReplacementOf(h, plan);
    InlinedIsLegal(h, args, reserved, params);
    ExecAppend(m, r.prefix, Positive(r), PadState(st, pads), own);
    left := ArgumentsReady(m, h, args, reserved, st, pads, own);
    var passed := EvalArgs(m, args, st, own);
    if passed.Val? {
      var filled := [left] + pads[1..];
      left := BodiesAgree(m, h, start, plan, Declared(Inlined(r)), passed.v, passed.st, filled, own);
      assert filled[1..] == pads[1..];
    }
  }

  /** The names the block adds are not names the helper takes from outside. */
  lemma {:induction false} AddedAreNotFree(h: Helper, args: seq<Expr>, reserved: set<Name>)
    requires LegalHelper(h) && NoClash(h, FullPlan(h, args, reserved).sigma)
    ensures var r := ReplacementOf(h, FullPlan(h, args, reserved));
      Printable(r) && TrulyFree(h) !! Declared(Inlined(r))
  {
    var start, plan := PlanParams(h, args, |h.params|, reserved), FullPlan(h, args, reserved);
    InlinedDeclares(h, args, reserved);
    PlanExtends(h, args, reserved);
    forall t | t in Declared(start.prefix) ensures t !in TrulyFree(h) {
      TempsAreTargets(h, args, |h.params|, reserved, t);
      var x :| x in start.sigma && start.sigma[x] == Var(t);
      assert plan.sigma[x] == Var(t);
    }
    forall t | t in HoistedLocals(h, plan.sigma) ensures t !in TrulyFree(h) {
      var y :| y in Locals(h) && t == Target(y, plan.sigma);
    }
  }

  /** In a top-level caller, all of whose own bindings are in `outer`. */
  lemma {:induction false} PlacedAtTopLevel(h: Helper, args: seq<Expr>, reserved: set<Name>, sh: Shared)
    requires LegalHelper(h) && NoClash(h, FullPlan(h, args, reserved).sigma)
    requires ArgNames(args) <= reserved && TrulyFree(h) !! sh.outer.Keys
    ensures var plan := FullPlan(h, args, reserved);
      && Printable(ReplacementOf(h, plan))
      && var added := Hoisted(Declared(Inlined(ReplacementOf(h, plan))));
         && Placed(h, args, plan, Caller(sh), [added], false)
         && PadState(Caller(sh), [added]) == State(Base(added), sh)
  {
    InlinedDeclares(h, args, reserved);
    AddedAreNotFree(h, args, reserved);
    var added := Hoisted(Declared(Inlined(ReplacementOf(h, FullPlan(h, args, reserved)))));
    assert [added][1..] == [] && Padding([added]) == added.Keys && map[] + added == added;
  }

  /** Seen from a caller with parameters `params`, whose visible bindings are in `sh.outer`: the program with
      the block in place of the call has the trace, store and error of the call if and only if no name the
      block adds is a parameter. */
  lemma {:induction false} InliningPreservesCall(m: Machine, h: Helper, args: seq<Expr>, reserved: set<Name>,
                                                 sh: Shared, params: set<Name>, maxStatements: nat)
    requires LegalHelper(h) && Accepted(h, maxStatements) && |args| <= |h.params|
    requires ArgNames(args) <= reserved && TrulyFree(h) !! sh.outer.Keys
    requires GuardsSeeNoLocals(h) && NoClash(h, FullPlan(h, args, reserved).sigma)
    requires NoInnerCapture(h, FullPlan(h, args, reserved).sigma)
    requires ArgumentsCompare(m, h, args, Caller(sh), false)
    ensures var r := ReplacementOf(h, FullPlan(h, args, reserved));
      && Printable(r)
      && (RunSpliced(m, Inlined(r), params, sh) == RunCall(m, h, args, sh) <==> Declared(Inlined(r)) !! params)
  {
    PlacedAtTopLevel(h, args, reserved, sh);
    var added := Hoisted(Declared(Inlined(ReplacementOf(h, FullPlan(h, args, reserved)))));
    var left := BlockDoesTheCall(m, h, args, reserved, Caller(sh), [added], false, params);
  }
}
