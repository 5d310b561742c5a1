/** Accepted inputs that are inlined wrongly, one for each hypothesis about names. */
module InlineLimits {
  import opened Basics
  import opened JsLang
  import opened JsText
  import opened GuardInversion
  import opened Renaming
  import opened InlinePlan
  import opened InlineCorrect
  import opened CallSites
  import opened InlineTheorem
  import opened CapturedReads
  import opened Rewriting
  import opened Callees
  import opened InlineRounds
  import opened Analysis

  /** A machine on which every primitive call returns `undefined` and changes nothing. */
  const QUIET := Machine(
    {},
    (a, b) => a == b,
    (a, b, sh) => Gives(a == b, sh),
    (a, b, sh) => Gives(Unordered, sh),
    (sym, a, b, sh) => Gives(Undefined, sh),
    (f, vs, sh) => Gives(Undefined, sh))

  // ---- chained helpers with the same parameter name ----

  /** `function A(x) { use(x); }` */
  const HELPER_A := Helper(["x"], [ExprS(Call("use", [Var("x")]))])

  /** `function B(x) { if (!x) return; A(get(x)); }` */
  const B_BEFORE := Helper(["x"], [If(Not(Var("x")), [Return]), ExprS(Call("A", [Call("get", [Var("x")])]))])

  /** What a round of inlining leaves of `A(get(x))`: `const __inl_x = get(x); use(__inl_x);` */
  const A_INLINED := [Decl("__inl_x", Call("get", [Var("x")])), ExprS(Call("use", [Var("__inl_x")]))]

  /** `B` after that round. */
  const HELPER_B := Helper(["x"], [If(Not(Var("x")), [Return])] + A_INLINED)

  lemma {:induction false} FirstRound()
    ensures RewrittenBlock(B_BEFORE.body, "A", HELPER_A) == HELPER_B.body
  {
    var body, call := B_BEFORE.body, B_BEFORE.body[1];
    WordsOfB();
    assert body[1..] == [call] && [call][1..] == [];
    assert [Return][1..] == [] && RewrittenBlock([Return], "A", HELPER_A) == [Return];
    BlockOfA();
    assert Rewritten([call], "A", HELPER_A, Words(body)) == A_INLINED + [];
    assert RewrittenOne(body[0], "A", HELPER_A) == body[0];
  }

  lemma {:induction false} WordsOfB()
    ensures Words(B_BEFORE.body) == {"x", "A", "get"}
  {
    var body, args := B_BEFORE.body, [Call("get", [Var("x")])];
    NamesOfCall("get", "x");
    assert body[1..] == [body[1]] && [body[1]][1..] == [] && args[1..] == [];
    assert Words([Return]) == {} by { assert [Return][1..] == []; }
    assert ArgNames(args) == {"get", "x"};
    assert Words(body[1..]) == WordsOne(body[1]);
  }

  lemma {:induction false} BlockOfA()
    ensures BlockOf(HELPER_A, [Call("get", [Var("x")])], {"x", "A", "get"}) == A_INLINED
  {
    var args, sigma: Subst, body := [Call("get", [Var("x")])], map["x" := Var("__inl_x")], HELPER_A.body;
    PlanForA();
    assert Guards(body) == [] && Tail(body) == body && body[1..] == [];
    SubstCall("use", "x", sigma);
    assert SubstStmts(body, sigma) == [ExprS(Call("use", [Var("__inl_x")]))];
  }

  lemma {:induction false} PlanForA()
    ensures FullPlan(HELPER_A, [Call("get", [Var("x")])], {"x", "A", "get"})
         == Plan([Decl("__inl_x", Call("get", [Var("x")]))], map["x" := Var("__inl_x")], {"x", "A", "get", "__inl_x"})
  {
    var args, reserved := [Call("get", [Var("x")])], {"x", "A", "get"};
    var body := HELPER_A.body;
    assert Guards(body) == [] && Tail(body) == body;
    NamesOfCall("use", "x");
    assert body[1..] == [];
    assert Mentions(body) == {"use", "x"};
    assert Uses(HELPER_A, "x");
    assert TEMP + "x" == "__inl_x";
    assert PlanParams(HELPER_A, args, 0, reserved) == Plan([], map[], reserved);
    var plan := PlanParams(HELPER_A, args, 1, reserved);
    assert plan == Plan([Decl("__inl_x", args[0])], map["x" := Var("__inl_x")], reserved + {"__inl_x"});
    assert PlanLocals(body, 1, plan) == plan;
  }

  lemma NamesOfCall(f: Name, x: Name)
    ensures Names(Call(f, [Var(x)])) == {f, x}
  {
    assert [Var(x)][1..] == [];
    assert ArgNames([Var(x)]) == {x};
  }

  lemma {:induction false} BShape()
    ensures Guards(HELPER_B.body) == [Not(Var("x"))] && Tail(HELPER_B.body) == A_INLINED
    ensures Mentions(A_INLINED) == {"get", "x", "use", "__inl_x"} && Locals(HELPER_B) == {"__inl_x"}
    ensures GuardNames(Guards(HELPER_B.body)) == {"x"} && TrulyFree(HELPER_B) == {"get", "use"}
    ensures Uses(HELPER_B, "x")
  {
    var body := HELPER_B.body;
    assert body[0] == If(Not(Var("x")), [Return]) && body[1..] == A_INLINED;
    assert Guards(A_INLINED) == [] && Tail(A_INLINED) == A_INLINED;
    NamesOfCall("get", "x");
    NamesOfCall("use", "__inl_x");
    var rest := [A_INLINED[1]];
    assert A_INLINED[1..] == rest && rest[1..] == [];
    assert Mentions(rest) == {"use", "__inl_x"};
    assert A_INLINED[0] in A_INLINED;
    assert ArgNames([Not(Var("x"))]) == Names(Not(Var("x"))) + ArgNames([Not(Var("x"))][1..]);
    assert HELPER_B.params[0] == "x" && Params(HELPER_B) == {"x"};
  }

  const Q := [Var("q")]

  function CallerOfB(g: Env): Shared { Shared(map["q" := Init(Num(1))], g, []) }

  lemma {:induction false} PlanForB()
    ensures FullPlan(HELPER_B, Q, {"B", "q"}) ==
            Plan([Decl("__inl_x", Var("q"))], map["x" := Var("__inl_x")], {"B", "q", "__inl_x"})
  {
    BShape();
    assert TEMP + "x" == "__inl_x";
    assert PlanParams(HELPER_B, Q, 0, {"B", "q"}) == Plan([], map[], {"B", "q"});
    assert PlanParams(HELPER_B, Q, 1, {"B", "q"}).prefix == [Decl("__inl_x", Var("q"))];
  }

  /** `A` is inlined into `B` first. Inlining `B(q)` then declares `__inl_x` twice, once for `B`'s parameter
      and once inside the `if`: the inner declaration reads itself, and the caller gets a ReferenceError
      where the call completed. Only `NoInnerCapture` fails. */
  lemma {:induction false} ChainedTemporariesClash(g: Env)
    ensures HELPER_B == Helper(B_BEFORE.params, RewrittenBlock(B_BEFORE.body, "A", HELPER_A))
    ensures Accepted(HELPER_B, 3) && Suitable(HELPER_B, FullPlan(HELPER_B, Q, {"B", "q"}).sigma)
    ensures !CallSiteShadows(HELPER_B, CallerOfB(g).outer.Keys)
    ensures !NoInnerCapture(HELPER_B, FullPlan(HELPER_B, Q, {"B", "q"}).sigma)
    ensures var r := ReplacementOf(HELPER_B, FullPlan(HELPER_B, Q, {"B", "q"}));
      Printable(r) && RunInlined(QUIET, Inlined(r), CallerOfB(g)) == Raises(REFERENCE_ERROR, CallerOfB(g))
    ensures RunCall(QUIET, HELPER_B, Q, CallerOfB(g)).Completes?
  {
    FirstRound();
    BIsAccepted();
    BIsCaptured(g);
    BCallCompletes(g);
    BBlockThrows(g);
  }

  lemma {:induction false} BIsCaptured(g: Env)
    ensures !CallSiteShadows(HELPER_B, CallerOfB(g).outer.Keys)
    ensures !NoInnerCapture(HELPER_B, FullPlan(HELPER_B, Q, {"B", "q"}).sigma)
  {
    BShape();
    PlanForB();
    ToolFreeNames(HELPER_B);
    assert "x" in FreeInBlock(A_INLINED) && "__inl_x" in Declared(A_INLINED);
  }

  lemma {:induction false} BBlockThrows(g: Env)
    ensures var r := ReplacementOf(HELPER_B, FullPlan(HELPER_B, Q, {"B", "q"}));
      Printable(r) && RunInlined(QUIET, Inlined(r), CallerOfB(g)) == Raises(REFERENCE_ERROR, CallerOfB(g))
  {
    BShape();
    BIsAccepted();
    BOnlyCaptures();
    BPasses(g);
    BReadsEarly(g);
    assert Q[1..] == [] && ArgNames(Q) == {"q"};
    var a := Entered(HELPER_B, [Num(1)], CallerOfB(g));
    CapturedReadThrows(QUIET, HELPER_B, Q, {"B", "q"}, CallerOfB(g), a, "x", "__inl_x", [], GET_X, [A_INLINED[1]]);
  }

  const GET_X := Call("get", [Var("x")])

  lemma {:induction false} BIsLegal()
    ensures LegalHelper(HELPER_B)
  {
    BShape();
    var guards := [Not(Var("x"))];
    assert guards[1..] == [] && AllParsed(guards[1..]);
    assert Parsed(Not(Var("x")));
    assert AllParsed(guards);
  }

  /** The initialiser of the inner `__inl_x` reads the parameter. */
  lemma {:induction false} BReadsEarly(g: Env)
    ensures var a := Entered(HELPER_B, [Num(1)], CallerOfB(g));
      var blind := a.(scopes := Unreadable(a.scopes, "x"));
      Exec(QUIET, [] + [ExprS(GET_X)], blind, true) == Thrown(REFERENCE_ERROR, blind)
  {
    var a := Entered(HELPER_B, [Num(1)], CallerOfB(g));
    var blind := a.(scopes := Unreadable(a.scopes, "x"));
    BIsLegal();
    EnteredFrame(HELPER_B, [Num(1)], CallerOfB(g), "x");
    assert HELPER_B.params[0] == "x";
    FindUnreadable(a.scopes, "x", "x");
    assert Read(blind, "x", true) == Threw(REFERENCE_ERROR, blind);
    assert EvalArgs(QUIET, [Var("x")], blind, true) == Threw(REFERENCE_ERROR, blind);
    assert [] + [ExprS(GET_X)] == [ExprS(GET_X)];
  }

  lemma {:induction false} BIsAccepted()
    ensures Accepted(HELPER_B, 3) && Suitable(HELPER_B, FullPlan(HELPER_B, Q, {"B", "q"}).sigma)
  {
    BShape();
    BIsLegal();
    PlanForB();
    InnerOfB();
    BGuardWritesNothing();
  }

  lemma BGuardWritesNothing()
    ensures ArgWrites([Not(Var("x"))]) == {}
  {
    assert [Not(Var("x"))][1..] == [];
  }

  lemma InnerOfB()
    ensures A_INLINED[1..] == [A_INLINED[1]] && A_INLINED == [] + ([A_INLINED[0]] + [A_INLINED[1]])
    ensures ReturnFree(A_INLINED) && Alters(A_INLINED) == {"__inl_x"}
  {
    var rest := [A_INLINED[1]];
    assert A_INLINED[1..] == rest && rest[1..] == [];
    CallWritesNothing("get", "x");
    CallWritesNothing("use", "__inl_x");
    assert Alters(rest) == {};
  }

  lemma CallWritesNothing(f: Name, x: Name)
    ensures Writes(Call(f, [Var(x)])) == {}
  {
    assert [Var(x)][1..] == [];
    assert ArgWrites([Var(x)]) == {};
  }

  lemma BOnlyCaptures()
    ensures OnlyCaptures(HELPER_B, FullPlan(HELPER_B, Q, {"B", "q"}).sigma, "x", "__inl_x", [], GET_X, [A_INLINED[1]])
  {
    BShape();
    PlanForB();
    InnerOfB();
    NamesOfCall("get", "x");
  }

  lemma {:induction false} BGuardPasses(a: State)
    requires Find(a.scopes, "x") == Some(Init(Num(1)))
    ensures RunGuards(QUIET, [Not(Var("x"))], map[], a, true) == Passed(a)
    ensures ComparableRun(QUIET, [Not(Var("x"))], map[], a, true)
  {
    SubstNothing(Not(Var("x")));
    assert Eval(QUIET, Not(Var("x")), a, true) == Val(Bool(false), a);
    assert RunGuards(QUIET, [Not(Var("x"))][1..], map[], a, true) == Passed(a);
  }

  lemma {:induction false} BPasses(g: Env)
    ensures EvalArgs(QUIET, Q, Caller(CallerOfB(g)), false) == Val([Num(1)], Caller(CallerOfB(g)))
    ensures PassesGuards(QUIET, HELPER_B, Q, CallerOfB(g), Entered(HELPER_B, [Num(1)], CallerOfB(g)))
    ensures Find(Entered(HELPER_B, [Num(1)], CallerOfB(g)).scopes, "x") == Some(Init(Num(1)))
  {
    var st := Caller(CallerOfB(g));
    BShape();
    BIsLegal();
    assert Q[1..] == [];
    assert Eval(QUIET, Q[0], st, false) == Val(Num(1), st);
    assert [Num(1)] + [] == [Num(1)];
    EnteredFrame(HELPER_B, [Num(1)], CallerOfB(g), "x");
    assert HELPER_B.params[0] == "x";
    BGuardPasses(Entered(HELPER_B, [Num(1)], CallerOfB(g)));
  }

  lemma {:induction false} BTailCompletes(a: State)
    requires Find(a.scopes, "x") == Some(Init(Num(1))) && Find(a.scopes, "__inl_x").Some?
    ensures Exec(QUIET, A_INLINED, a, true).Normal?
  {
    assert EvalArgs(QUIET, [Var("x")], a, true).Val? by {
      assert Read(a, "x", true) == Val(Num(1), a);
      assert [Var("x")][1..] == [];
    }
    var b := ExecOne(QUIET, A_INLINED[0], a, true);
    assert b.Normal?;
    FindAfterStore(a.scopes, "__inl_x", Undefined, "__inl_x");
    assert Read(b.st, "__inl_x", true) == Val(Undefined, b.st);
    assert [Var("__inl_x")][1..] == [];
    assert EvalArgs(QUIET, [Var("__inl_x")], b.st, true).Val?;
    assert ExecOne(QUIET, A_INLINED[1], b.st, true).Normal?;
    assert A_INLINED[1..][0] == A_INLINED[1] && A_INLINED[1..][1..] == [];
  }

  lemma {:induction false} BBodyCompletes(a: State)
    requires Find(a.scopes, "x") == Some(Init(Num(1))) && Find(a.scopes, "__inl_x").Some?
    ensures Exec(QUIET, HELPER_B.body, a, true).Normal?
  {
    BShape();
    BodyRun(QUIET, HELPER_B.body, a, true);
    BGuardPasses(a);
    BTailCompletes(a);
  }

  lemma {:induction false} BCallCompletes(g: Env)
    ensures RunCall(QUIET, HELPER_B, Q, CallerOfB(g)).Completes?
  {
    BShape();
    BIsLegal();
    BPasses(g);
    HelperRuns(QUIET, HELPER_B, [Num(1)], CallerOfB(g));
    EnteredFrame(HELPER_B, [Num(1)], CallerOfB(g), "__inl_x");
    BBodyCompletes(Entered(HELPER_B, [Num(1)], CallerOfB(g)));
  }

  // ---- a captured reference that is evaluated without effect ----

  /** `function H(x) { if (!x) return; const __inl_x = 1; x; }` */
  const HELPER_H := Helper(["x"], [If(Not(Var("x")), [Return])] + H_TAIL)
  const H_TAIL := [Decl("__inl_x", Lit(Num(1))), ExprS(Var("x"))]

  lemma {:induction false} HShape()
    ensures Guards(HELPER_H.body) == [Not(Var("x"))] && Tail(HELPER_H.body) == H_TAIL
    ensures Mentions(H_TAIL) == {"x", "__inl_x"} && Declared(H_TAIL) == {"__inl_x"} && Uses(HELPER_H, "x")
    ensures FullPlan(HELPER_H, Q, {"H", "q"})
         == Plan([Decl("__inl_x", Var("q"))], map["x" := Var("__inl_x")], {"H", "q", "__inl_x"})
  {
    var body, rest := HELPER_H.body, [H_TAIL[1]];
    assert body[0] == If(Not(Var("x")), [Return]) && body[1..] == H_TAIL;
    assert Guards(H_TAIL) == [] && Tail(H_TAIL) == H_TAIL;
    assert H_TAIL[1..] == rest && rest[1..] == [];
    assert Mentions(rest) == {"x"} && Declared(rest) == {};
    assert H_TAIL[0] in H_TAIL;
    assert ArgNames([Not(Var("x"))]) == Names(Not(Var("x"))) + ArgNames([Not(Var("x"))][1..]);
    assert TEMP + "x" == "__inl_x";
    assert PlanParams(HELPER_H, Q, 0, {"H", "q"}) == Plan([], map[], {"H", "q"});
    assert PlanParams(HELPER_H, Q, 1, {"H", "q"}).prefix == [Decl("__inl_x", Var("q"))];
  }

  /** The tail of `H` with its parameter replaced: `const __inl_x = 1; __inl_x;` */
  const H_REPLACED := [Decl("__inl_x", Lit(Num(1))), ExprS(Var("__inl_x"))]

  lemma {:induction false} HReplacement()
    ensures var r := ReplacementOf(HELPER_H, FullPlan(HELPER_H, Q, {"H", "q"}));
      Printable(r) && Inlined(r) == [Decl("__inl_x", Var("q")), If(Var("__inl_x"), H_REPLACED)]
  {
    HShape();
    var plan := FullPlan(HELPER_H, Q, {"H", "q"});
    var r := ReplacementOf(HELPER_H, plan);
    CombinedGuardsParse([Not(Var("x"))], plan.sigma);
    assert CombinedTree([Not(Var("x"))], plan.sigma) == Var("__inl_x");
    assert r.condition.Some? && Parse(r.condition.value).value == Var("__inl_x");
    assert H_TAIL[1..] == [H_TAIL[1]] && [H_TAIL[1]][1..] == [];
    assert SubstStmts([H_TAIL[1]], plan.sigma) == [H_REPLACED[1]];
    assert SubstStmt(H_TAIL[0], plan.sigma) == H_REPLACED[0];
    assert SubstStmts(H_TAIL, plan.sigma) == [H_REPLACED[0]] + [H_REPLACED[1]] == H_REPLACED;
    assert r.tail == H_REPLACED && Positive(r) == [If(Var("__inl_x"), H_REPLACED)];
  }

  /** The tail of `H` runs to its end, whichever of the two names its last statement reads. */
  lemma {:induction false} HTailCompletes(m: Machine, x: Name, st: State, own: bool)
    requires Find(st.scopes, "__inl_x").Some?
    requires x == "__inl_x" || (Find(st.scopes, x).Some? && Find(st.scopes, x).value.Init?)
    ensures var done := Exec(m, [Decl("__inl_x", Lit(Num(1))), ExprS(Var(x))], st, own);
      done.Normal? && done.st.sh == st.sh
  {
    var ss := [Decl("__inl_x", Lit(Num(1))), ExprS(Var(x))];
    FindAfterStore(st.scopes, "__inl_x", Num(1), x);
    var b := ExecOne(m, ss[0], st, own);
    assert b == Normal(st.(scopes := Store(st.scopes, "__inl_x", Num(1))));
    assert Find(b.st.scopes, x).Some? && Find(b.st.scopes, x).value.Init?;
    assert ExecOne(m, ss[1], b.st, own) == Normal(b.st);
    assert ss[1..] == [ss[1]] && [ss[1]][1..] == [];
    assert Exec(m, ss[1..], b.st, own) == Normal(b.st);
  }

  /** What `H(q)` does, before and after: it reads `q`, and then nothing that can be seen. */
  function ReadsQ(m: Machine, sh: Shared): CallResult {
    match Eval(m, Var("q"), Caller(sh), false)
    case Val(_, st) => Completes(st.sh)
    case Threw(err, st) => Raises(err, st.sh)
  }

  lemma {:induction false} HBodyCompletes(m: Machine, v: Value, a: State)
    requires Find(a.scopes, "x") == Some(Init(v)) && Find(a.scopes, "__inl_x").Some?
    ensures var done := Exec(m, HELPER_H.body, a, true); !done.Thrown? && done.st.sh == a.sh
  {
    HShape();
    BodyRun(m, HELPER_H.body, a, true);
    SubstNothing(Not(Var("x")));
    assert Eval(m, Not(Var("x")), a, true) == Val(Bool(!Truthy(v)), a);
    assert RunGuards(m, [Not(Var("x"))][1..], map[], a, true) == Passed(a);
    HTailCompletes(m, "x", a, true);
  }

  lemma {:induction false} HReplies(m: Machine, v: Value, sh: Shared)
    ensures RunHelper(m, HELPER_H, [v], sh) == Gives(Undefined, sh)
  {
    HShape();
    HelperRuns(m, HELPER_H, [v], sh);
    assert [Not(Var("x"))][1..] == [] && AllParsed([Not(Var("x"))][1..]);
    EnteredFrame(HELPER_H, [v], sh, "x");
    EnteredFrame(HELPER_H, [v], sh, "__inl_x");
    assert HELPER_H.params[0] == "x";
    HBodyCompletes(m, v, Entered(HELPER_H, [v], sh));
  }

  lemma {:induction false} HCall(m: Machine, sh: Shared)
    ensures RunCall(m, HELPER_H, Q, sh) == ReadsQ(m, sh)
  {
    var o := Eval(m, Var("q"), Caller(sh), false);
    assert Q[1..] == [];
    if o.Val? {
      assert [o.v] + [] == [o.v] && EvalArgs(m, Q, Caller(sh), false) == Val([o.v], o.st);
      HReplies(m, o.v, o.st.sh);
    }
  }

  lemma {:induction false} HBlock(m: Machine, sh: Shared)
    ensures RunInlined(m, [Decl("__inl_x", Var("q")), If(Var("__inl_x"), H_REPLACED)], sh) == ReadsQ(m, sh)
  {
    var first, second := Decl("__inl_x", Var("q")), If(Var("__inl_x"), H_REPLACED);
    var block := [first, second];
    DeclaredCons(first, [second]);
    assert [first] + [second] == block && Declared([second]) == {};
    assert Declared(block) == {"__inl_x"};
    var st := State(Base(Hoisted({"__inl_x"})), sh);
    var o := ExecOne(m, first, st, false);
    if o.Normal? {
      assert block[1..] == [second];
      OneIf(m, Var("__inl_x"), H_REPLACED, o.st, false);
      assert H_REPLACED[0] in H_REPLACED;
      HTailCompletes(m, "__inl_x", o.st.(scopes := Push(o.st.scopes, Declared(H_REPLACED))), false);
    }
  }

  /** Here `NoInnerCapture` fails too and the captured reference is evaluated, yet on every machine and in
      every caller the block does what the call does. So no condition on names alone is exact: what is
      read must also matter. */
  lemma {:induction false} CapturedForNothing(m: Machine, sh: Shared)
    ensures !NoInnerCapture(HELPER_H, FullPlan(HELPER_H, Q, {"H", "q"}).sigma)
    ensures var r := ReplacementOf(HELPER_H, FullPlan(HELPER_H, Q, {"H", "q"}));
      Printable(r) && RunInlined(m, Inlined(r), sh) == RunCall(m, HELPER_H, Q, sh)
  {
    HShape();
    HReplacement();
    HCall(m, sh);
    HBlock(m, sh);
    assert "x" in FreeInBlock(H_TAIL) && "__inl_x" in Declared(H_TAIL);
  }

  // ---- a temporary that hides a name of the module ----

  /** `function N(x) { use(__inl_x); x; }`, where `__inl_x` is a variable of the module. */
  const HELPER_N := Helper(["x"], N_TAIL)
  const N_TAIL := [ExprS(Call("use", [Var("__inl_x")])), ExprS(Var("x"))]

  /** The tail with its parameter replaced. */
  const N_REPLACED := [ExprS(Call("use", [Var("__inl_x")])), ExprS(Var("__inl_x"))]

  function ModuleOfN(): Shared { Shared(map["q" := Init(Num(1))], map["__inl_x" := Init(Num(2))], []) }

  /** Fresh names are chosen against the block of the call alone. The temporary for `x` takes a name the
      helper reads from its module, and the inlined code passes the argument in its place. */
  lemma {:induction false} TemporaryHidesGlobal()
    ensures LegalHelper(HELPER_N) && Accepted(HELPER_N, 2) && !CallSiteShadows(HELPER_N, {"q"})
    ensures !NoClash(HELPER_N, FullPlan(HELPER_N, Q, {"N", "q"}).sigma)
    ensures RunCall(QUIET, HELPER_N, Q, ModuleOfN()) == Completes(ModuleOfN().(trace := [("use", [Num(2)])]))
    ensures var r := ReplacementOf(HELPER_N, FullPlan(HELPER_N, Q, {"N", "q"}));
      RunInlined(QUIET, Inlined(r), ModuleOfN()) == Completes(ModuleOfN().(trace := [("use", [Num(1)])]))
  {
    NShape();
    NPlan();
    NReplacement();
    NCall();
    NBlock();
  }

  lemma {:induction false} NShape()
    ensures Guards(N_TAIL) == [] && Tail(N_TAIL) == N_TAIL && Declared(N_TAIL) == {} && Uses(HELPER_N, "x")
    ensures LegalHelper(HELPER_N) && Accepted(HELPER_N, 2)
    ensures TrulyFree(HELPER_N) == FreeNames(HELPER_N) == {"use", "__inl_x"}
  {
    var rest := [N_TAIL[1]];
    assert N_TAIL[1..] == rest && rest[1..] == [];
    NamesOfCall("use", "__inl_x");
    CallWritesNothing("use", "__inl_x");
    assert Mentions(rest) == {"x"};
    assert Mentions(N_TAIL) == MentionsOne(N_TAIL[0]) + Mentions(rest);
    assert MentionsOne(N_TAIL[0]) == {"use", "__inl_x"};
    assert DeclaredInside(rest) == {} && DeclaredInside(N_TAIL) == {};
    assert ReturnFree(rest) && Alters(rest) == {};
  }

  lemma {:induction false} NPlan()
    ensures FullPlan(HELPER_N, Q, {"N", "q"})
         == Plan([Decl("__inl_x", Var("q"))], map["x" := Var("__inl_x")], {"N", "q", "__inl_x"})
  {
    NShape();
    assert TEMP + "x" == "__inl_x";
    assert PlanParams(HELPER_N, Q, 0, {"N", "q"}) == Plan([], map[], {"N", "q"});
    var plan := PlanParams(HELPER_N, Q, 1, {"N", "q"});
    assert plan.prefix == [Decl("__inl_x", Var("q"))];
    assert !N_TAIL[0].Decl? && !N_TAIL[1].Decl?;
    assert PlanLocals(N_TAIL, 0, plan) == plan;
    assert PlanLocals(N_TAIL, 1, plan) == plan;
    assert PlanLocals(N_TAIL, 2, plan) == plan;
  }

  lemma {:induction false} NReplacement()
    ensures var r := ReplacementOf(HELPER_N, FullPlan(HELPER_N, Q, {"N", "q"}));
      Inlined(r) == [Decl("__inl_x", Var("q"))] + N_REPLACED
  {
    NShape();
    NPlan();
    var sigma: Subst := map["x" := Var("__inl_x")];
    assert [Var("__inl_x")][1..] == [] && SubstArgs([Var("__inl_x")], sigma) == [Var("__inl_x")] + [];
    assert N_TAIL[1..] == [N_TAIL[1]] && [N_TAIL[1]][1..] == [];
    assert [Var("__inl_x")] + [] == [Var("__inl_x")] && SubstStmt(N_TAIL[0], sigma) == N_REPLACED[0];
    assert SubstStmts([N_TAIL[1]], sigma) == [N_REPLACED[1]];
    assert SubstStmts(N_TAIL, sigma) == [N_REPLACED[0]] + [N_REPLACED[1]] == N_REPLACED;
  }

  /** `use(__inl_x); x;` where both names can be read. */
  lemma {:induction false} NTailRuns(x: Name, v: Value, st: State, own: bool)
    requires Read(st, "__inl_x", own) == Val(v, st) && Find(st.scopes, x).Some? && Find(st.scopes, x).value.Init?
    requires st.sh.trace == []
    ensures Exec(QUIET, [ExprS(Call("use", [Var("__inl_x")])), ExprS(Var(x))], st, own)
         == Normal(st.(sh := st.sh.(trace := [("use", [v])])))
  {
    var ss := [ExprS(Call("use", [Var("__inl_x")])), ExprS(Var(x))];
    UseRuns("__inl_x", v, st, own);
    var b := ExecOne(QUIET, ss[0], st, own);
    assert ExecOne(QUIET, ss[1], b.st, own) == Normal(b.st);
    assert ss[1..] == [ss[1]] && [ss[1]][1..] == [];
    assert Exec(QUIET, ss[1..], b.st, own) == Normal(b.st);
  }

  lemma {:induction false} NCall()
    ensures RunCall(QUIET, HELPER_N, Q, ModuleOfN()) == Completes(ModuleOfN().(trace := [("use", [Num(2)])]))
  {
    NShape();
    var st, a := Caller(ModuleOfN()), Entered(HELPER_N, [Num(1)], ModuleOfN());
    assert Q[1..] == [] && Eval(QUIET, Q[0], st, false) == Val(Num(1), st);
    assert [Num(1)] + [] == [Num(1)];
    HelperRuns(QUIET, HELPER_N, [Num(1)], ModuleOfN());
    EnteredFrame(HELPER_N, [Num(1)], ModuleOfN(), "x");
    EnteredFrame(HELPER_N, [Num(1)], ModuleOfN(), "__inl_x");
    assert HELPER_N.params[0] == "x";
    NTailRuns("x", Num(2), a, true);
  }

  lemma {:induction false} NBlock()
    ensures RunInlined(QUIET, [Decl("__inl_x", Var("q"))] + N_REPLACED, ModuleOfN())
         == Completes(ModuleOfN().(trace := [("use", [Num(1)])]))
  {
    var first := Decl("__inl_x", Var("q"));
    var block := [first] + N_REPLACED;
    DeclaredCons(first, N_REPLACED);
    assert Declared(N_REPLACED) == {} && Declared(block) == {"__inl_x"};
    var st := State(Base(Hoisted({"__inl_x"})), ModuleOfN());
    var o := ExecOne(QUIET, first, st, false);
    assert o.Normal? && o.st.sh == st.sh && Read(o.st, "__inl_x", false) == Val(Num(1), o.st);
    assert block[1..] == N_REPLACED;
    NTailRuns("__inl_x", Num(1), o.st, false);
  }

  // ---- a local that is a parameter of the caller ----

  /** `function helper(e) { const ctx = make(e); use(ctx); }` */
  const HELPER_P := Helper(["e"], P_TAIL)
  const P_TAIL := [Decl("ctx", Call("make", [Var("e")])), ExprS(Call("use", [Var("ctx")]))]

  /** `function handler(event, ctx) { helper(event); }` */
  const CALLER_P := Helper(["event", "ctx"], P_BEFORE)
  const P_BEFORE := [ExprS(Call("helper", [Var("event")]))]
  const P_WORDS := {"helper", "event"}

  const P_FILE: File := map["helper" := HELPER_P, "handler" := CALLER_P]

  /** `const __inl_e = event; const ctx = make(__inl_e); use(ctx);` */
  const P_AFTER :=
    [Decl("__inl_e", Var("event"))]
    + [Decl("ctx", Call("make", [Var("__inl_e")])), ExprS(Call("use", [Var("ctx")]))]

  /** The body of `handler` does not mention its parameter `ctx`, so the tool takes the name for free, and
      writes a function that declares its parameter again. Of the conditions on names only the one about
      parameters fails; nothing of the program runs. */
  lemma {:induction false} ParameterDeclaredAgain(m: Machine, sh: Shared)
    ensures LegalHelper(CALLER_P) && LegalHelper(HELPER_P)
    ensures IsCandidate(Options(["helper", "handler"], {"helper"}, 2), P_FILE, "helper")
    ensures FineBlock(CALLER_P.body, "helper", HELPER_P, Params(CALLER_P))
    ensures RewrittenBlock(CALLER_P.body, "helper", HELPER_P) == P_AFTER
    ensures !LegalHelper(RewrittenHelper(CALLER_P, "helper", HELPER_P))
    ensures RunSpliced(m, P_AFTER, Params(CALLER_P), sh) == Rejected
  {
    PShape();
    PCaller();
    PIsCandidate();
    PRewritten();
    PIsFine();
    PDeclares();
    DeclaresParameter(RewrittenHelper(CALLER_P, "helper", HELPER_P), 1);
  }

  lemma {:induction false} PIsCandidate()
    ensures IsCandidate(Options(["helper", "handler"], {"helper"}, 2), P_FILE, "helper")
  {
    PShape();
    PCaller();
    PCallees();
    assert Declared(P_BEFORE) == {} && Params(CALLER_P) + {} == Params(CALLER_P);
    assert SitesAccepted(P_BEFORE, "helper", HELPER_P, Params(CALLER_P)) by { assert P_BEFORE[1..] == []; }
    assert "handler" in P_FILE && "helper" in CalleesIn(P_FILE["handler"].body);
  }

  lemma {:induction false} PCallees()
    ensures "helper" !in CalleesIn(P_TAIL) && "helper" in CalleesIn(P_BEFORE)
    ensures NoOtherCall(P_BEFORE, "helper", "helper")
  {
    assert P_TAIL[1..] == [P_TAIL[1]] && [P_TAIL[1]][1..] == [] && P_BEFORE[1..] == [];
    CalleeOfCall("make", "e");
    CalleeOfCall("use", "ctx");
    CalleeOfCall("helper", "event");
  }

  lemma CalleeOfCall(f: Name, x: Name)
    ensures CalleesOf(Call(f, [Var(x)])) == {f} && CalleesOfAll([Var(x)]) == {}
  {
    assert [Var(x)][1..] == [] && CalleesOf(Var(x)) == {} && CalleesOfAll([Var(x)]) == {};
  }

  lemma DeclaresParameter(h: Helper, i: nat)
    requires i < |h.params| && h.params[i] in Declared(h.body)
    ensures !LegalHelper(h) && !LegalAmong(h.body, Params(h))
  {
    GuardsDeclareNothing(h.body);
    assert h.params[i] in Params(h);
  }

  lemma {:induction false} PCaller()
    ensures Params(CALLER_P) == {"event", "ctx"} && LegalHelper(CALLER_P)
  {
    assert Tail(P_BEFORE) == P_BEFORE && Guards(P_BEFORE) == [] && P_BEFORE[1..] == [];
    assert Declared(P_BEFORE) == {};
    assert CALLER_P.params[0] == "event" && CALLER_P.params[1] == "ctx";
  }

  lemma {:induction false} PShape()
    ensures Guards(P_TAIL) == [] && Tail(P_TAIL) == P_TAIL && Declared(P_TAIL) == {"ctx"} && Uses(HELPER_P, "e")
    ensures LegalHelper(HELPER_P) && Accepted(HELPER_P, 2)
    ensures TrulyFree(HELPER_P) == FreeNames(HELPER_P) == {"make", "use"}
  {
    var rest := [P_TAIL[1]];
    assert P_TAIL[1..] == rest && rest[1..] == [] && P_TAIL[0] in P_TAIL;
    PMentions();
    PAlters();
    PDeclaresInside(rest);
    assert LegalInside(rest);
  }

  lemma PDeclaresInside(rest: seq<Stmt>)
    requires rest == [P_TAIL[1]] && P_TAIL[1..] == rest && rest[1..] == []
    ensures DeclaredInside(rest) == {} && DeclaredInside(P_TAIL) == {}
  {
    assert DeclaredInOne(rest[0]) == {} && DeclaredInside(rest[1..]) == {};
    assert DeclaredInOne(P_TAIL[0]) == {};
  }

  lemma {:induction false} PAlters()
    ensures ReturnFree(P_TAIL) && Alters(P_TAIL) == {"ctx"}
  {
    var rest := [P_TAIL[1]];
    assert P_TAIL[1..] == rest && rest[1..] == [];
    CallWritesNothing("make", "e");
    CallWritesNothing("use", "ctx");
    assert AltersOne(rest[0]) == {} && AltersOne(P_TAIL[0]) == {"ctx"};
    assert Alters(rest[1..]) == {} && ReturnFree(rest[1..]);
    assert Alters(rest) == {} && ReturnFree(rest);
  }

  lemma {:induction false} PMentions()
    ensures Mentions(P_TAIL) == {"make", "e", "use", "ctx"}
  {
    var rest := [P_TAIL[1]];
    NamesOfCall("make", "e");
    NamesOfCall("use", "ctx");
    assert P_TAIL[1..] == rest && rest[1..] == [];
    assert Mentions(rest) == {"use", "ctx"};
    assert MentionsOne(P_TAIL[0]) == {"make", "e", "ctx"};
  }

  lemma {:induction false} PPlan()
    ensures FullPlan(HELPER_P, [Var("event")], P_WORDS)
         == Plan([Decl("__inl_e", Var("event"))], map["e" := Var("__inl_e")], P_WORDS + {"__inl_e"} + {"ctx"})
  {
    PShape();
    var args := [Var("event")];
    assert TEMP + "e" == "__inl_e";
    assert PlanParams(HELPER_P, args, 0, P_WORDS) == Plan([], map[], P_WORDS);
    var plan := PlanParams(HELPER_P, args, 1, P_WORDS);
    assert plan.prefix == [Decl("__inl_e", Var("event"))];
    assert PlanLocals(P_TAIL, 0, plan) == plan;
    assert PlanLocals(P_TAIL, 1, plan) == plan.(reserved := plan.reserved + {"ctx"});
    assert PlanLocals(P_TAIL, 2, plan) == PlanLocals(P_TAIL, 1, plan);
  }

  lemma {:induction false} PRewritten()
    ensures Words(P_BEFORE) == P_WORDS
    ensures Rewritten(P_BEFORE, "helper", HELPER_P, P_WORDS) == P_AFTER
  {
    PShape();
    PPlan();
    PTail();
    NamesOfCall("helper", "event");
    assert P_BEFORE[1..] == [];
    assert BlockOf(HELPER_P, [Var("event")], P_WORDS) == P_AFTER;
    assert P_AFTER + [] == P_AFTER;
  }

  lemma {:induction false} PTail()
    ensures [Decl("__inl_e", Var("event"))] + SubstStmts(P_TAIL, map["e" := Var("__inl_e")]) == P_AFTER
  {
    var sigma: Subst := map["e" := Var("__inl_e")];
    SubstCall("make", "e", sigma);
    SubstCall("use", "ctx", sigma);
    assert P_TAIL[1..] == [P_TAIL[1]] && [P_TAIL[1]][1..] == [];
    assert SubstStmts([P_TAIL[1]], sigma) == [P_AFTER[2]];
    assert SubstStmts(P_TAIL, sigma) == [P_AFTER[1]] + [P_AFTER[2]];
  }

  lemma SubstCall(f: Name, x: Name, sigma: Subst)
    ensures SubstExpr(Call(f, [Var(x)]), sigma) == Call(f, [SubstExpr(Var(x), sigma)])
  {
    var args := [Var(x)];
    assert args[1..] == [] && SubstArgs(args, sigma) == [SubstExpr(Var(x), sigma)] + SubstArgs(args[1..], sigma);
    assert [SubstExpr(Var(x), sigma)] + [] == [SubstExpr(Var(x), sigma)];
  }

  lemma {:induction false} PIsFine()
    ensures FineBlock(P_BEFORE, "helper", HELPER_P, Params(CALLER_P))
  {
    PShape();
    PPlan();
    PRewritten();
    PDeclares();
    PIsInlinable();
    var scope := Params(CALLER_P) + Declared(P_AFTER);
    assert CallFine(HELPER_P, [Var("event")], P_WORDS, scope);
    assert P_BEFORE[1..] == [] && P_BEFORE[0] == ExprS(Call("helper", [Var("event")]));
    assert Fine([], "helper", HELPER_P, FullPlan(HELPER_P, [Var("event")], P_WORDS).reserved, scope);
    assert Fine(P_BEFORE, "helper", HELPER_P, P_WORDS, scope);
  }

  lemma PDeclares()
    ensures Declared(P_AFTER) == {"__inl_e", "ctx"}
  {
    DeclaredCons(P_AFTER[0], P_AFTER[1..]);
    DeclaredCons(P_AFTER[1], [P_AFTER[2]]);
    assert P_AFTER[1..] == [P_AFTER[1]] + [P_AFTER[2]] && P_AFTER == [P_AFTER[0]] + P_AFTER[1..];
    assert Declared([P_AFTER[2]]) == {};
  }

  lemma {:induction false} PIsInlinable()
    ensures Inlinable(HELPER_P, map["e" := Var("__inl_e")])
  {
    PShape();
    var sigma: Subst := map["e" := Var("__inl_e")];
    assert P_TAIL[1..] == [P_TAIL[1]] && [P_TAIL[1]][1..] == [];
    assert Clear([P_TAIL[1]], sigma);
    assert Clear(P_TAIL, sigma);
  }

  // ---- a name that is both free and declared in a nested block ----

  /** `function T() { if (c) { const k = 0; } use(k); }`, whose `k` outside the block is the module's. */
  const HELPER_T := Helper([], [If(Var("c"), [Decl("k", Lit(Num(0)))]), ExprS(Call("use", [Var("k")]))])

  function ModuleOfT(): Shared {
    Shared(map["k" := Init(Num(1))], map["c" := Init(Bool(false)), "k" := Init(Num(2))], [])
  }

  /** The tool does not count `k` as free because a nested block declares it, so it inlines the
      call although the caller has its own `k`; the inlined code then passes that one instead. */
  lemma {:induction false} NestedDeclarationHidesFreeName()
    ensures "k" in TrulyFree(HELPER_T) && !Hygienic(HELPER_T) && !CallSiteShadows(HELPER_T, {"k"})
    ensures RunCall(QUIET, HELPER_T, [], ModuleOfT()) == Completes(ModuleOfT().(trace := [("use", [Num(2)])]))
    ensures RunInlined(QUIET, HELPER_T.body, ModuleOfT()) == Completes(ModuleOfT().(trace := [("use", [Num(1)])]))
    ensures HELPER_T.body == Inlined(ReplacementOf(HELPER_T, FullPlan(HELPER_T, [], {"T"})))
  {
    TNames();
    TReplacement();
    ToolFreeNames(HELPER_T);
    HelperRuns(QUIET, HELPER_T, [], ModuleOfT());
    TRun(true, Entered(HELPER_T, [], ModuleOfT()));
    TRun(false, State(Base(Hoisted({})), ModuleOfT()));
  }

  lemma {:induction false} TNames()
    ensures Guards(HELPER_T.body) == [] && Tail(HELPER_T.body) == HELPER_T.body && Declared(HELPER_T.body) == {}
    ensures "k" in TrulyFree(HELPER_T) && "k" in DeclaredInBlock(HELPER_T.body)
  {
    var body := HELPER_T.body;
    var rest, nested := [body[1]], [Decl("k", Lit(Num(0)))];
    assert body[1..] == rest && rest[1..] == [] && nested[1..] == [];
    NamesOfCall("use", "k");
    assert Mentions(rest) == {"use", "k"};
    assert nested[0] in nested && Declared(nested) == {"k"};
    assert DeclaredInside(rest) == {} && DeclaredInside(nested) == {};
    assert DeclaredInside(body) == {"k"};
  }

  lemma {:induction false} TReplacement()
    ensures HELPER_T.body == Inlined(ReplacementOf(HELPER_T, FullPlan(HELPER_T, [], {"T"})))
  {
    var body := HELPER_T.body;
    var rest, nested := [body[1]], [Decl("k", Lit(Num(0)))];
    assert body[1..] == rest && rest[1..] == [] && nested[1..] == [];
    assert nested[0] in nested && Declared(nested) == {"k"};
    var none: Subst := map[];
    assert PlanLocals(body, 1, Plan([], none, {"T"})) == Plan([], none, {"T"});
    assert FullPlan(HELPER_T, [], {"T"}) == Plan([], none, {"T"});
    assert SubstArgs([Var("k")], none) == [Var("k")] + SubstArgs([Var("k")][1..], none);
    assert none - {"k"} == none;
    assert SubstStmts(nested, none) == nested;
    assert SubstStmt(body[0], none) == body[0];
    assert [Var("k")] + [] == [Var("k")];
    assert SubstStmt(body[1], none) == body[1];
    assert SubstStmts(rest, none) == rest;
    assert SubstStmts(body, none) == body;
  }

  lemma {:induction false} TRun(own: bool, st: State)
    requires st.sh == ModuleOfT() && Find(st.scopes, "c").None? && Find(st.scopes, "k").None?
    ensures Exec(QUIET, HELPER_T.body, st, own)
         == Normal(st.(sh := st.sh.(trace := [("use", [Num(if own then 2 else 1)])])))
  {
    var body, k := HELPER_T.body, Num(if own then 2 else 1);
    assert ExecOne(QUIET, body[0], st, own) == Normal(st);
    assert Read(st, "k", own) == Val(k, st);
    UseRuns("k", k, st, own);
    assert body[1..][0] == body[1] && body[1..][1..] == [];
  }

  /** `use(x);` where `x` can be read, on the quiet machine. */
  lemma {:induction false} UseRuns(x: Name, v: Value, st: State, own: bool)
    requires Read(st, x, own) == Val(v, st) && st.sh.trace == []
    ensures ExecOne(QUIET, ExprS(Call("use", [Var(x)])), st, own) == Normal(st.(sh := st.sh.(trace := [("use", [v])])))
  {
    assert [Var(x)][1..] == [] && [v] + [] == [v];
    assert EvalArgs(QUIET, [Var(x)], st, own) == Val([v], st);
    assert st.sh.trace + [("use", [v])] == [("use", [v])];
    var done := st.(sh := st.sh.(trace := [("use", [v])]));
    SettledAlready(done.sh, done.sh);
    assert Eval(QUIET, Call("use", [Var(x)]), st, own) == Val(Undefined, done);
  }

  // ---- a guard that names a local of the tail ----

  /** `function G() { if (k) return; const k = 1; use(k); }`: the guard reads its own `k` too early. */
  const HELPER_G := Helper([], [If(Var("k"), [Return])] + G_TAIL)
  const G_TAIL := [Decl("k", Lit(Num(1))), ExprS(Call("use", [Var("k")]))]

  function ModuleOfG(): Shared { Shared(map[], map["k" := Init(Bool(false))], []) }

  /** The call throws, while after inlining the condition reads the module's `k` and the tail runs. */
  lemma {:induction false} GuardNamesLocal()
    ensures LegalHelper(HELPER_G) && Accepted(HELPER_G, 3) && !CallSiteShadows(HELPER_G, {})
    ensures !GuardsSeeNoLocals(HELPER_G)
    ensures RunCall(QUIET, HELPER_G, [], ModuleOfG()) == Raises(REFERENCE_ERROR, ModuleOfG())
    ensures var r := ReplacementOf(HELPER_G, FullPlan(HELPER_G, [], {"G"}));
      && Printable(r)
      && RunInlined(QUIET, Inlined(r), ModuleOfG()) == Completes(ModuleOfG().(trace := [("use", [Num(1)])]))
  {
    GShape();
    GCallThrows();
    GBlockCompletes();
  }

  lemma {:induction false} GShape()
    ensures Guards(HELPER_G.body) == [Var("k")] && Tail(HELPER_G.body) == G_TAIL
    ensures Mentions(G_TAIL) == {"k", "use"} && Locals(HELPER_G) == {"k"} && GuardNames([Var("k")]) == {"k"}
    ensures LegalHelper(HELPER_G) && Accepted(HELPER_G, 3)
    ensures FreeNames(HELPER_G) == {"use"} && FullPlan(HELPER_G, [], {"G"}) == Plan([], map[], {"G"})
  {
    var body, rest, guards := HELPER_G.body, [G_TAIL[1]], [Var("k")];
    assert body[0] == If(Var("k"), [Return]) && body[1..] == G_TAIL;
    assert Guards(G_TAIL) == [] && Tail(G_TAIL) == G_TAIL;
    assert G_TAIL[1..] == rest && rest[1..] == [] && guards[1..] == [];
    NamesOfCall("use", "k");
    assert Mentions(rest) == {"use", "k"};
    assert ReturnFree(rest) by { assert ReturnFreeOne(rest[0]) && ReturnFree(rest[1..]); }
    assert DeclaredInside(rest) == {} by { assert DeclaredInOne(rest[0]) == {} && DeclaredInside(rest[1..]) == {}; }
    assert G_TAIL[0] in G_TAIL;
    assert AllParsed(guards);
  }

  lemma {:induction false} GCallThrows()
    ensures RunCall(QUIET, HELPER_G, [], ModuleOfG()) == Raises(REFERENCE_ERROR, ModuleOfG())
  {
    GShape();
    var a := Entered(HELPER_G, [], ModuleOfG());
    HelperRuns(QUIET, HELPER_G, [], ModuleOfG());
    BodyRun(QUIET, HELPER_G.body, a, true);
    EnteredFrame(HELPER_G, [], ModuleOfG(), "k");
    SubstNothing(Var("k"));
    assert Eval(QUIET, Var("k"), a, true) == Threw(REFERENCE_ERROR, a);
  }

  lemma {:induction false} GReplacement()
    ensures var r := ReplacementOf(HELPER_G, FullPlan(HELPER_G, [], {"G"}));
      Printable(r) && Inlined(r) == [If(Not(Paren(Var("k"))), G_TAIL)]
  {
    GShape();
    var none: Subst := map[];
    CombinedGuardsParse([Var("k")], none);
    assert CombinedTree([Var("k")], none) == Not(Paren(Var("k")));
    var r := ReplacementOf(HELPER_G, FullPlan(HELPER_G, [], {"G"}));
    assert r.condition.Some? && Parse(r.condition.value).value == Not(Paren(Var("k")));
    assert [Var("k")][1..] == [] && SubstArgs([Var("k")], none) == [Var("k")] + [];
    assert G_TAIL[1..] == [G_TAIL[1]] && [G_TAIL[1]][1..] == [];
    assert SubstStmt(G_TAIL[1], none) == G_TAIL[1] && SubstStmt(G_TAIL[0], none) == G_TAIL[0];
    assert SubstStmts([G_TAIL[1]], none) == [G_TAIL[1]];
    assert SubstStmts(G_TAIL, none) == [G_TAIL[0]] + [G_TAIL[1]] == G_TAIL;
    assert r.prefix == [] && r.tail == G_TAIL && Positive(r) == [If(Not(Paren(Var("k"))), G_TAIL)];
  }

  lemma {:induction false} GTailCompletes(st: State)
    requires st.sh == ModuleOfG()
    ensures ExecBlock(QUIET, G_TAIL, st, false) == Normal(st.(sh := st.sh.(trace := [("use", [Num(1)])])))
  {
    GShape();
    var inside := st.(scopes := Push(st.scopes, {"k"}));
    var loaded := ExecOne(QUIET, G_TAIL[0], inside, false);
    assert loaded.Normal? && loaded.st.sh == st.sh && loaded.st.scopes.Inner? && loaded.st.scopes.up == st.scopes;
    assert Read(loaded.st, "k", false) == Val(Num(1), loaded.st);
    UseRuns("k", Num(1), loaded.st, false);
    var last := ExecOne(QUIET, G_TAIL[1], loaded.st, false);
    assert G_TAIL[1..][0] == G_TAIL[1] && G_TAIL[1..][1..] == [];
    assert Exec(QUIET, G_TAIL[1..], loaded.st, false) == last;
  }

  lemma {:induction false} GBlockCompletes()
    ensures var r := ReplacementOf(HELPER_G, FullPlan(HELPER_G, [], {"G"}));
      && Printable(r)
      && RunInlined(QUIET, Inlined(r), ModuleOfG()) == Completes(ModuleOfG().(trace := [("use", [Num(1)])]))
  {
    GReplacement();
    var cond, st := Not(Paren(Var("k"))), State(Base(Hoisted({})), ModuleOfG());
    assert Declared([If(cond, G_TAIL)]) == {};
    assert Eval(QUIET, cond, st, false) == Val(Bool(true), st);
    OneIf(QUIET, cond, G_TAIL, st, false);
    GTailCompletes(st);
  }
}
