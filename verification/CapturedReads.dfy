/** When a captured replacement is felt: a parameter read too early, and one read for nothing. */
module CapturedReads {
  import opened Basics
  import opened JsLang
  import opened JsText
  import opened GuardInversion
  import opened Renaming
  import opened CallerFrames
  import opened InlinePlan
  import opened InlineCorrect
  import opened CallSites
  import opened InlineTheorem

  // ---- statements in a row ----

  lemma {:induction false} MentionsAppend(a: seq<Stmt>, b: seq<Stmt>)
    ensures Mentions(a + b) == Mentions(a) + Mentions(b) && Alters(a + b) == Alters(a) + Alters(b)
  {
    if a == [] {
      assert a + b == b;
    } else {
      assert (a + b)[0] == a[0] && (a + b)[1..] == a[1..] + b;
      MentionsAppend(a[1..], b);
    }
  }

  lemma {:induction false} ClearAppend(a: seq<Stmt>, b: seq<Stmt>, sigma: Subst)
    ensures Clear(a + b, sigma) <==> Clear(a, sigma) && Clear(b, sigma)
  {
    if a == [] {
      assert a + b == b;
    } else {
      assert (a + b)[0] == a[0] && (a + b)[1..] == a[1..] + b;
      ClearAppend(a[1..], b, sigma);
    }
  }

  lemma {:induction false} SubstAppend(a: seq<Stmt>, b: seq<Stmt>, sigma: Subst)
    ensures SubstStmts(a + b, sigma) == SubstStmts(a, sigma) + SubstStmts(b, sigma)
  {
    if a == [] {
      assert a + b == b;
    } else {
      assert (a + b)[0] == a[0] && (a + b)[1..] == a[1..] + b;
      SubstAppend(a[1..], b, sigma);
    }
  }

  /** An error before or in the initialiser of a declaration ends the statements. */
  lemma {:induction false} ThrowsByThen(m: Machine, a: seq<Stmt>, x: Name, e: Expr, rest: seq<Stmt>, st: State,
                                        own: bool)
    requires Exec(m, a + [ExprS(e)], st, own).Thrown?
    ensures Exec(m, a + ([Decl(x, e)] + rest), st, own) == Exec(m, a + [ExprS(e)], st, own)
  {
    ExecAppend(m, a, [ExprS(e)], st, own);
    ExecAppend(m, a, [Decl(x, e)] + rest, st, own);
    var done := Exec(m, a, st, own);
    if done.Normal? {
      assert ([Decl(x, e)] + rest)[0] == Decl(x, e) && [ExprS(e)][1..] == [];
      assert Exec(m, [ExprS(e)], done.st, own) == ExecOne(m, ExprS(e), done.st, own);
      assert ExecOne(m, Decl(x, e), done.st, own) == ExecOne(m, ExprS(e), done.st, own);
    }
  }

  // ---- a parameter nobody may read ----

  /** The same frame, in which reading `p` is an error. */
  function Unreadable(s: Scopes, p: Name): Scopes {
    if p in s.env then s.(env := s.env[p := Uninit])
    else match s
      case Base(_) => s
      case Inner(_, up) => s.(up := Unreadable(up, p))
  }

  lemma {:induction false} FindUnreadable(s: Scopes, p: Name, x: Name)
    ensures Find(Unreadable(s, p), x) == if x == p && Find(s, x).Some? then Some(Uninit) else Find(s, x)
  {
    if p !in s.env && s.Inner? { FindUnreadable(s.up, p, x); }
  }

  /** Only `p` is captured: its replacement `t` is declared by the tail, after the statements `early`
      and the initialiser `e`, which do not mention it themselves. */
  ghost predicate OnlyCaptures(h: Helper, sigma: Subst, p: Name, t: Name, early: seq<Stmt>, e: Expr, rest: seq<Stmt>) {
    && Guards(h.body) != [] && Tail(h.body) == early + ([Decl(t, e)] + rest)
    && p in sigma && sigma[p] == Var(t) && t !in Mentions(early) + Names(e) && Clear(early, sigma)
    && forall x :: x in sigma && x != p && sigma[x].Var? ==> sigma[x].x !in Locals(h)
  }

  lemma TailNames(h: Helper, sigma: Subst, p: Name, t: Name, early: seq<Stmt>, e: Expr, rest: seq<Stmt>)
    requires OnlyCaptures(h, sigma, p, t, early, e, rest)
    ensures t in Locals(h) && Mentions(early + [ExprS(e)]) == Mentions(early) + Names(e) <= Mentions(Tail(h.body))
    ensures Alters(early + [ExprS(e)]) <= Alters(Tail(h.body))
  {
    var later := [Decl(t, e)] + rest;
    MentionsAppend(early, [ExprS(e)]);
    MentionsAppend(early, later);
    assert [ExprS(e)][1..] == [] && later[0] == Decl(t, e) && later[1..] == rest;
    assert Decl(t, e) in Tail(h.body);
  }

  /** The helper's frame without the parameter, and the block of the tail before `t` is declared. */
  lemma EarlyFramesAlike(h: Helper, start: Plan, plan: Plan, outer: set<Name>, p: Name, t: Name, early: seq<Stmt>,
                         e: Expr, rest: seq<Stmt>, a: State, b: State)
    requires Extends(h, start, plan) && Suitable(h, plan.sigma) && OnlyCaptures(h, plan.sigma, p, t, early, e, rest)
    requires Alike(FrameContext(h, plan.sigma, outer, false), a, b)
    requires a.scopes.Inner? && a.scopes.env == Hoisted(Locals(h)) && p in h.params && Find(a.scopes, p).Some?
    ensures Alike(Context([], Mentions(early) + Names(e), plan.sigma, outer, true, false),
                  a.(scopes := Unreadable(a.scopes, p)), b.(scopes := Push(b.scopes, Locals(h))))
  {
    var sigma, names, i := plan.sigma, Mentions(early) + Names(e), Push(b.scopes, Locals(h));
    PlanIsUncaptured(h, start, plan);
    TailNames(h, sigma, p, t, early, e, rest);
    forall x | x in names ensures RelatedName(x, sigma, Unreadable(a.scopes, p), i, outer, true) {
      FindUnreadable(a.scopes, p, x);
      if x !in Locals(h) { assert RelatedName(x, sigma, a.scopes, b.scopes, outer, true); }
    }
    forall x | x in sigma && sigma[x].Var? ensures sigma[x].x !in names - sigma.Keys {
      if x != p { assert sigma[x].x in names ==> sigma[x].x in OuterNames(h); }
    }
    AllRelated(names, sigma, Unreadable(a.scopes, p), i, outer, false);
  }

  /** The first statements and the whole tail, with their references replaced. */
  lemma {:induction false} TailReplaced(h: Helper, sigma: Subst, p: Name, t: Name, early: seq<Stmt>, e: Expr,
                                        rest: seq<Stmt>)
    requires OnlyCaptures(h, sigma, p, t, early, e, rest) && sigma.Keys !! Locals(h)
    ensures SubstStmts(early + [ExprS(e)], sigma) == SubstStmts(early, sigma) + [ExprS(SubstExpr(e, sigma))]
    ensures SubstStmts(Tail(h.body), sigma)
         == SubstStmts(early, sigma) + ([Decl(t, SubstExpr(e, sigma))] + SubstStmts(rest, sigma))
  {
    var later := [Decl(t, e)] + rest;
    SubstAppend(early, [ExprS(e)], sigma);
    SubstAppend(early, later, sigma);
    TailNames(h, sigma, p, t, early, e, rest);
    assert [ExprS(e)][1..] == [] && SubstStmts([], sigma) == [];
    assert later[1..] == rest && Target(t, sigma) == t;
  }

  /** The block of the tail throws what the helper's first statements throw when `p` cannot be read. */
  lemma {:induction false} TailThrowsEarly(m: Machine, h: Helper, start: Plan, plan: Plan, outer: set<Name>, p: Name,
                                           t: Name, early: seq<Stmt>, e: Expr, rest: seq<Stmt>, a: State, b: State)
    requires Extends(h, start, plan) && Suitable(h, plan.sigma) && OnlyCaptures(h, plan.sigma, p, t, early, e, rest)
    requires Alike(FrameContext(h, plan.sigma, outer, false), a, b)
    requires a.scopes.Inner? && a.scopes.env == Hoisted(Locals(h)) && p in h.params && Find(a.scopes, p).Some?
    requires Exec(m, early + [ExprS(e)], a.(scopes := Unreadable(a.scopes, p)), true).Thrown?
    ensures var felt := Exec(m, early + [ExprS(e)], a.(scopes := Unreadable(a.scopes, p)), true);
      var done := ExecBlock(m, SubstStmts(Tail(h.body), plan.sigma), b, false);
      done.Thrown? && done.err == felt.err && done.st.sh == felt.st.sh
  {
    var sigma, first := plan.sigma, early + [ExprS(e)];
    var c := Context([], Mentions(early) + Names(e), sigma, outer, true, false);
    var a', b' := a.(scopes := Unreadable(a.scopes, p)), b.(scopes := Push(b.scopes, Locals(h)));
    EarlyFramesAlike(h, start, plan, outer, p, t, early, e, rest, a, b);
    TailNames(h, sigma, p, t, early, e, rest);
    ClearAppend(early, [ExprS(e)], sigma);
    SeesOuterNames(c, Mentions(first));
    assert c.Live() == sigma;
    ExecAlike(m, first, c, a', b');
    TailReplaced(h, sigma, p, t, early, e, rest);
    SubstKeepsDeclared(Tail(h.body), sigma);
    ThrowsByThen(m, SubstStmts(early, sigma), t, SubstExpr(e, sigma), SubstStmts(rest, sigma), b', false);
  }

  // ---- calls of such a helper ----

  /** A guarded helper, called from a top-level caller, whose guards let the call pass in state `a`. */
  ghost predicate PassesGuards(m: Machine, h: Helper, args: seq<Expr>, sh: Shared, a: State) {
    var passed := EvalArgs(m, args, Caller(sh), false);
    && passed.Val?
    && ComparableRun(m, Guards(h.body), map[], Entered(h, passed.v, passed.st.sh), true)
    && RunGuards(m, Guards(h.body), map[], Entered(h, passed.v, passed.st.sh), true) == Passed(a)
  }

  /** The block after the prefix and the guards of a call that passes them. */
  lemma {:induction false} GuardsPassInBlock(m: Machine, h: Helper, args: seq<Expr>, reserved: set<Name>, sh: Shared,
                                             a: State) returns (b: State)
    requires |args| <= |h.params| && ArgNames(args) <= reserved && TrulyFree(h) !! sh.outer.Keys
    requires Suitable(h, FullPlan(h, args, reserved).sigma) && Guards(h.body) != []
    requires PassesGuards(m, h, args, sh, a)
    ensures var plan := FullPlan(h, args, reserved);
      var r := ReplacementOf(h, plan);
      && Printable(r)
      && Alike(FrameContext(h, plan.sigma, sh.outer.Keys, false), a, b)
      && a.scopes.Inner? && a.scopes.env == Hoisted(Locals(h))
      && (forall p :: p in h.params ==> Find(a.scopes, p).Some?)
      && RunInlined(m, Inlined(r), sh) == ResultOf(ExecBlock(m, r.tail, b, false))
  {
    var start, plan := PlanParams(h, args, |h.params|, reserved), FullPlan(h, args, reserved);
    var r := ReplacementOf(h, plan);
    PlacedAtTopLevel(h, args, reserved, sh);
    PlanExtends(h, args, reserved);
    var added, passed := Hoisted(Declared(Inlined(r))), EvalArgs(m, args, Caller(sh), false);
    ExecAppend(m, r.prefix, Positive(r), State(Base(added), sh), false);
    var filled := ArgumentsReady(m, h, args, reserved, Caller(sh), [added], false);
    assert [filled] + [added][1..] == [filled];
    EvalArgsKeepsLayout(m, args, Caller(sh), false);
    b := GuardsPass(m, h, start, plan, added.Keys, passed.v, passed.st, [filled], a);
  }

  lemma {:induction false} GuardsPass(m: Machine, h: Helper, start: Plan, plan: Plan, hoisted: set<Name>,
                                      vs: seq<Value>, st: State, pads: seq<Env>, a: State) returns (b: State)
    requires Ready(h, start, plan, hoisted, vs, st, pads, false) && Guards(h.body) != []
    requires Printable(ReplacementOf(h, plan))
    requires ComparableRun(m, Guards(h.body), map[], Entered(h, vs, st.sh), true)
    requires RunGuards(m, Guards(h.body), map[], Entered(h, vs, st.sh), true) == Passed(a)
    ensures Alike(FrameContext(h, plan.sigma, st.sh.outer.Keys, false), a, b)
    ensures a.scopes.Inner? && a.scopes.env == Hoisted(Locals(h))
    ensures forall p :: p in h.params ==> Find(a.scopes, p).Some?
    ensures var r := ReplacementOf(h, plan);
      Exec(m, Positive(r), PadState(st, pads), false) == ExecBlock(m, r.tail, b, false)
  {
    var r := ReplacementOf(h, plan);
    GuardsAgree(m, h, start, plan, hoisted, vs, st, pads, false);
    b := RunGuards(m, Guards(h.body), plan.sigma, PadState(st, pads), false).st;
    OneIf(m, Parse(r.condition.value).value, r.tail, PadState(st, pads), false);
    forall p | p in h.params ensures Find(a.scopes, p).Some? { EnteredFrame(h, vs, st.sh, p); }
  }

  /** Where a captured parameter is read before the declaration that captures it, inlining is wrong for
      every call that completes: the block throws what the helper would throw if the parameter could
      not be read. */
  lemma {:induction false} CapturedReadThrows(m: Machine, h: Helper, args: seq<Expr>, reserved: set<Name>, sh: Shared,
                                              a: State, p: Name, t: Name, early: seq<Stmt>, e: Expr, rest: seq<Stmt>)
    requires |args| <= |h.params| && ArgNames(args) <= reserved && TrulyFree(h) !! sh.outer.Keys
    requires Suitable(h, FullPlan(h, args, reserved).sigma)
    requires OnlyCaptures(h, FullPlan(h, args, reserved).sigma, p, t, early, e, rest)
    requires PassesGuards(m, h, args, sh, a)
    requires Exec(m, early + [ExprS(e)], a.(scopes := Unreadable(a.scopes, p)), true).Thrown?
    ensures var r := ReplacementOf(h, FullPlan(h, args, reserved));
      var felt := Exec(m, early + [ExprS(e)], a.(scopes := Unreadable(a.scopes, p)), true);
      && Printable(r) && RunInlined(m, Inlined(r), sh) == Raises(felt.err, felt.st.sh)
      && (RunCall(m, h, args, sh).Completes? ==> RunInlined(m, Inlined(r), sh) != RunCall(m, h, args, sh))
  {
    var start, plan := PlanParams(h, args, |h.params|, reserved), FullPlan(h, args, reserved);
    var b := GuardsPassInBlock(m, h, args, reserved, sh, a);
    PlanExtends(h, args, reserved);
    TailThrowsEarly(m, h, start, plan, sh.outer.Keys, p, t, early, e, rest, a, b);
  }
}
