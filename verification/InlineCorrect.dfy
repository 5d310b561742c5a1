/** The pieces of an inlined block: arguments bound to temporaries, guards, and the helper body, each
    doing what the call did. */
module InlineCorrect {
  import opened JsLang
  import opened JsText
  import opened GuardInversion
  import opened FreshNames
  import opened Renaming
  import opened CallerFrames
  import opened InlinePlan

  // ---- what a call does, and what its replacement does ----

  function ArgAt(vs: seq<Value>, i: nat): Value { if i < |vs| then vs[i] else Undefined }

  function Bind(params: seq<Name>, vs: seq<Value>): Env {
    if params == [] then map[]
    else Bind(params[1..], if vs == [] then [] else vs[1..])[params[0] := Init(ArgAt(vs, 0))]
  }

  /** The state in which a helper's body starts. */
  function Entered(h: Helper, vs: seq<Value>, sh: Shared): State {
    State(Push(Base(Bind(h.params, vs)), Locals(h)), sh)
  }

  /** A helper's bare `return` ends the call; an error goes on to the caller. */
  function ReplyOf(c: Completion): Reply<Value> {
    if c.Thrown? then Fails(c.err, c.st.sh) else Gives(Undefined, c.st.sh)
  }

  function RunHelper(m: Machine, h: Helper, vs: seq<Value>, sh: Shared): Reply<Value> {
    ReplyOf(ExecBlock(m, h.body, State(Base(Bind(h.params, vs)), sh), true))
  }

  /** The statement `helper(args);` in a caller. */
  function CallHelper(m: Machine, h: Helper, args: seq<Expr>, st: State, own: bool): Completion {
    match EvalArgs(m, args, st, own)
    case Threw(err, st') => Thrown(err, st')
    case Val(vs, st') =>
      match RunHelper(m, h, vs, st'.sh)
      case Fails(err, sh) => Thrown(err, st'.(sh := sh))
      case Gives(_, sh) => Normal(st'.(sh := sh))
  }

  /** Statements in a caller's block that have done what a call from state `st` did: `reply`. */
  predicate Replies(reply: Reply<Value>, c: Completion) {
    match reply
    case Gives(_, sh) => c.Normal? && c.st.sh == sh
    case Fails(err, sh) => c.Thrown? && c.err == err && c.st.sh == sh
  }

  // ---- seen from a top-level caller, all of whose bindings are in `outer` ----

  /** What a discarded call leaves to its caller. */
  /** A program with an early error is `Rejected`: nothing of it runs. */
  datatype CallResult = Completes(sh: Shared) | Raises(err: Value, sh: Shared) | LeavesCaller(sh: Shared) | Rejected

  function ResultOf(c: Completion): CallResult {
    match c
    case Normal(st) => Completes(st.sh)
    case Returned(st) => LeavesCaller(st.sh)
    case Thrown(err, st) => Raises(err, st.sh)
  }

  function Hoisted(names: set<Name>): Env { map x | x in names :: Uninit }

  function Caller(sh: Shared): State { State(Base(map[]), sh) }

  function RunCall(m: Machine, h: Helper, args: seq<Expr>, sh: Shared): CallResult {
    ResultOf(CallHelper(m, h, args, Caller(sh), false))
  }

  /** The statements run in the caller's own block, which then declares their names too. */
  function RunInlined(m: Machine, ss: seq<Stmt>, sh: Shared): CallResult {
    ResultOf(Exec(m, ss, State(Base(Hoisted(Declared(ss))), sh), false))
  }

  /** The statements as part of a function's body, which may not declare one of its parameters. */
  function RunSpliced(m: Machine, ss: seq<Stmt>, params: set<Name>, sh: Shared): CallResult {
    if LegalAmong(ss, params) then RunInlined(m, ss, sh) else Rejected
  }

  // ---- the replacement as statements ----

  predicate Printable(r: Replacement) {
    r.condition.Some? ==> Parse(r.condition.value).Some?
  }

  /** The inlined statements after the hoisted arguments, with the printed condition read back. */
  function Positive(r: Replacement): seq<Stmt>
    requires Printable(r)
  {
    if r.condition.None? then r.tail else [If(Parse(r.condition.value).value, r.tail)]
  }

  function Inlined(r: Replacement): seq<Stmt>
    requires Printable(r)
  {
    r.prefix + Positive(r)
  }

  // ---- evaluation facts ----

  lemma {:induction false} BindAt(params: seq<Name>, vs: seq<Value>, j: nat)
    requires Distinct(params) && j < |params|
    ensures params[j] in Bind(params, vs) && Bind(params, vs)[params[j]] == Init(ArgAt(vs, j))
  {
    if j > 0 {
      assert Distinct(params[1..]) by {
        forall a, b | 0 <= a < b < |params| - 1 ensures params[1..][a] != params[1..][b] {
          assert params[a + 1] != params[b + 1];
        }
      }
      BindAt(params[1..], if vs == [] then [] else vs[1..], j - 1);
      assert params[0] != params[j];
    }
  }

  lemma {:induction false} BindKeys(params: seq<Name>, vs: seq<Value>)
    ensures Bind(params, vs).Keys == set p | p in params
  {
    if params != [] { BindKeys(params[1..], if vs == [] then [] else vs[1..]); }
  }

  /** Statements `ss` run after `done`, unless it left early. */
  function Then(m: Machine, done: Completion, ss: seq<Stmt>, own: bool): Completion {
    match done
    case Normal(st) => Exec(m, ss, st, own)
    case other => other
  }

  lemma {:induction false} ExecAppend(m: Machine, a: seq<Stmt>, b: seq<Stmt>, st: State, own: bool)
    ensures Exec(m, a + b, st, own) == Then(m, Exec(m, a, st, own), b, own)
  {
    if a == [] {
      assert a + b == b;
    } else {
      assert (a + b)[0] == a[0] && (a + b)[1..] == a[1..] + b;
      var o := ExecOne(m, a[0], st, own);
      if o.Normal? { ExecAppend(m, a[1..], b, o.st, own); }
    }
  }

  lemma {:induction false} EvalArgsSnoc(m: Machine, args: seq<Expr>, e: Expr, st: State, own: bool)
    ensures EvalArgs(m, args + [e], st, own) ==
      match EvalArgs(m, args, st, own) {
        case Threw(err, st') => Threw(err, st')
        case Val(vs, st') =>
          match Eval(m, e, st', own) {
            case Threw(err, st'') => Threw(err, st'')
            case Val(v, st'') => Val(vs + [v], st'')
          }
      }
  {
    if args == [] {
      assert args + [e] == [e] && [e][1..] == [];
      var o := Eval(m, e, st, own);
      if o.Val? { assert [o.v] + [] == [] + [o.v]; }
    } else {
      assert (args + [e])[0] == args[0] && (args + [e])[1..] == args[1..] + [e];
      var o := Eval(m, args[0], st, own);
      if o.Val? {
        EvalArgsSnoc(m, args[1..], e, o.st, own);
        var rest := EvalArgs(m, args[1..], o.st, own);
        if rest.Val? {
          var last := Eval(m, e, rest.st, own);
          if last.Val? { assert [o.v] + (rest.v + [last.v]) == ([o.v] + rest.v) + [last.v]; }
        }
      }
    }
  }

  lemma {:induction false} EvalKeepsScopes(m: Machine, e: Expr, st: State, own: bool)
    requires forall x :: x in Writes(e) ==> Find(st.scopes, x).None?
    ensures Eval(m, e, st, own).st.scopes == st.scopes
    decreases e, 1
  {
    match e
    case Lit(_) =>
    case Var(_) =>
    case Paren(e') => EvalKeepsScopes(m, e', st, own);
    case Not(e') => EvalKeepsScopes(m, e', st, own);
    case Bin(_, l, r) =>
      EvalKeepsScopes(m, l, st, own);
      var o := Eval(m, l, st, own);
      if o.Val? { EvalKeepsScopes(m, r, o.st, own); }
    case Assign(_, e') => EvalKeepsScopes(m, e', st, own);
    case Call(_, args) => EvalArgsKeepsScopes(m, args, st, own);
  }

  lemma {:induction false} EvalArgsKeepsScopes(m: Machine, args: seq<Expr>, st: State, own: bool)
    requires forall x :: x in ArgWrites(args) ==> Find(st.scopes, x).None?
    ensures EvalArgs(m, args, st, own).st.scopes == st.scopes
    decreases args, 0
  {
    if args != [] {
      EvalKeepsScopes(m, args[0], st, own);
      var o := Eval(m, args[0], st, own);
      if o.Val? { EvalArgsKeepsScopes(m, args[1..], o.st, own); }
    }
  }

  lemma {:induction false} WritesAreNames(e: Expr)
    ensures Writes(e) <= Names(e)
    decreases e, 1
  {
    match e
    case Lit(_) =>
    case Var(_) =>
    case Paren(e') => WritesAreNames(e');
    case Not(e') => WritesAreNames(e');
    case Bin(_, l, r) => WritesAreNames(l); WritesAreNames(r);
    case Assign(_, e') => WritesAreNames(e');
    case Call(_, args) => ArgWritesAreNames(args);
  }

  lemma {:induction false} ArgWritesAreNames(args: seq<Expr>)
    ensures ArgWrites(args) <= ArgNames(args)
    decreases args, 0
  {
    if args != [] {
      WritesAreNames(args[0]);
      ArgWritesAreNames(args[1..]);
    }
  }

  lemma {:induction false} LiteralIsInert(m: Machine, e: Expr, st: State, own: bool)
    requires IsLiteral(e)
    ensures Eval(m, e, st, own).Val? && Eval(m, e, st, own).st == st
    decreases e
  {
    if e.Paren? { LiteralIsInert(m, e.e, st, own); }
  }

  // ---- evaluating the arguments ----

  lemma {:induction false} ArgNamesContain(args: seq<Expr>, i: nat)
    requires i < |args|
    ensures Names(args[i]) <= ArgNames(args)
  {
    if i > 0 { ArgNamesContain(args[1..], i - 1); }
  }

  lemma DeclaredSnoc(ss: seq<Stmt>, s: Stmt)
    ensures Declared(ss + [s]) == Declared(ss) + if s.Decl? then {s.x} else {}
  {
    DeclaredAppend(ss, [s]);
  }

  lemma DeclaredAppend(a: seq<Stmt>, b: seq<Stmt>)
    ensures Declared(a + b) == Declared(a) + Declared(b)
  {
    forall x | x in Declared(a) + Declared(b) ensures x in Declared(a + b) {
      if x in Declared(a) { var s :| s in a && s.Decl? && s.x == x; assert s in a + b; }
      else { var s :| s in b && s.Decl? && s.x == x; assert s in a + b; }
    }
  }

  /** Facts about the planned temporaries. */
  ghost predicate PlanFacts(h: Helper, i: nat, reserved: set<Name>, plan: Plan)
    requires i <= |h.params|
  {
    && reserved <= plan.reserved
    && Declared(plan.prefix) <= plan.reserved - reserved
    && (forall x :: x in plan.sigma <==> x in h.params[..i] && Uses(h, x))
    && (forall x :: x in plan.sigma ==>
          (plan.sigma[x].Var? && plan.sigma[x].x in Declared(plan.prefix)) || plan.sigma[x] == Lit(Undefined))
    && (forall x, y :: x in plan.sigma && y in plan.sigma && plan.sigma[x].Var? && plan.sigma[x] == plan.sigma[y] ==>
          x == y)
  }

  lemma ParamsSnoc(h: Helper, i: nat)
    requires 0 < i <= |h.params| && Distinct(h.params)
    ensures h.params[..i] == h.params[..i - 1] + [h.params[i - 1]]
    ensures h.params[i - 1] !in h.params[..i - 1]
  {
  }

  lemma PlanTempFacts(h: Helper, i: nat, reserved: set<Name>, plan: Plan, temp: Name, e: Expr)
    requires 0 < i <= |h.params| && Distinct(h.params) && PlanFacts(h, i - 1, reserved, plan)
    requires temp !in plan.reserved && Uses(h, h.params[i - 1])
    ensures PlanFacts(h, i, reserved, Plan(plan.prefix + [Decl(temp, e)], plan.sigma[h.params[i - 1] := Var(temp)],
                                           plan.reserved + {temp}))
  {
    ParamsSnoc(h, i);
    DeclaredSnoc(plan.prefix, Decl(temp, e));
  }

  lemma {:induction false} PlanParamsFacts(h: Helper, args: seq<Expr>, i: nat, reserved: set<Name>)
    requires i <= |h.params| && Distinct(h.params)
    ensures PlanFacts(h, i, reserved, PlanParams(h, args, i, reserved))
    decreases i
  {
    if i > 0 {
      PlanParamsFacts(h, args, i - 1, reserved);
      ParamsSnoc(h, i);
      var before, p := PlanParams(h, args, i - 1, reserved), h.params[i - 1];
      if Uses(h, p) && i <= |args| {
        PlanTempFacts(h, i, reserved, before, Fresh(TEMP + p, before.reserved), args[i - 1]);
      } else if i <= |args| {
        DeclaredSnoc(before.prefix, ExprS(args[i - 1]));
      }
    }
  }

  /** The plan has some parameter stand for temporary `t`. */
  ghost predicate Targeted(plan: Plan, t: Name) {
    exists x :: x in plan.sigma && plan.sigma[x] == Var(t)
  }

  /** Every temporary stands for some parameter. */
  lemma {:induction false} TempsAreTargets(h: Helper, args: seq<Expr>, i: nat, reserved: set<Name>, t: Name)
    requires i <= |h.params| && Distinct(h.params)
    requires t in Declared(PlanParams(h, args, i, reserved).prefix)
    ensures Targeted(PlanParams(h, args, i, reserved), t)
    decreases i
  {
    if i > 0 {
      var before := PlanParams(h, args, i - 1, reserved);
      NotYetPlanned(h, args, i, reserved);
      if t in Declared(before.prefix) { TempsAreTargets(h, args, i - 1, reserved, t); }
      TempIsTarget(h, args, i, before, t);
    }
  }

  lemma NotYetPlanned(h: Helper, args: seq<Expr>, i: nat, reserved: set<Name>)
    requires 0 < i <= |h.params| && Distinct(h.params)
    ensures h.params[i - 1] !in PlanParams(h, args, i - 1, reserved).sigma
  {
    PlanParamsFacts(h, args, i - 1, reserved);
    ParamsSnoc(h, i);
  }

  /** One more parameter: its temporary becomes a target, and the others stay targets. */
  lemma TempIsTarget(h: Helper, args: seq<Expr>, i: nat, before: Plan, t: Name)
    requires 0 < i <= |h.params| && h.params[i - 1] !in before.sigma
    requires t in Declared(PlanParam(h, args, i - 1, before).prefix)
    requires t in Declared(before.prefix) ==> Targeted(before, t)
    ensures Targeted(PlanParam(h, args, i - 1, before), t)
  {
    PrefixGrows(h, args, i, before);
    var after := PlanParam(h, args, i - 1, before);
    if t in Declared(before.prefix) {
      var x :| x in before.sigma && before.sigma[x] == Var(t);
      assert after.sigma[x] == Var(t);
    } else {
      assert after.sigma[h.params[i - 1]] == Var(t);
    }
  }

  /** What a replacement stands for among the names added to the block. */
  predicate Stands(e: Expr, env: Env, v: Value) {
    match e
    case Var(t) => t in env && env[t] == Init(v)
    case Lit(u) => u == v
    case _ => false
  }

  /** The names added to the block once the prefix for the first `i` parameters has run. */
  ghost predicate Loaded(env: Env, hoisted: set<Name>, h: Helper, plan: Plan, i: nat, vs: seq<Value>)
    requires i <= |h.params|
  {
    && hoisted <= env.Keys
    && (forall y :: y in hoisted && y !in Declared(plan.prefix) ==> env[y] == Uninit)
    && (forall j :: 0 <= j < i && h.params[j] in plan.sigma ==> Stands(plan.sigma[h.params[j]], env, ArgAt(vs, j)))
  }

  /** The arguments have been evaluated on both sides with the same outcome. */
  ghost predicate ArgsAgree(h: Helper, plan: Plan, i: nat, hoisted: set<Name>, pads: seq<Env>,
                            a: Outcome<seq<Value>>, b: Completion)
    requires i <= |h.params|
  {
    match a
    case Val(vs, st) =>
      Fitting(st.scopes, pads) && b == Normal(PadState(st, pads)) && Loaded(pads[0], hoisted, h, plan, i, vs)
    case Threw(err, st) => b.Thrown? && b.err == err && b.st.sh == st.sh
  }

  /** The block that a call is inlined into: the caller's frame with names added to its scopes, those of
      the inlined code among the innermost ones. */
  ghost predicate BlockFor(args: seq<Expr>, hoisted: set<Name>, st: State, pads: seq<Env>) {
    && Fitting(st.scopes, pads) && ArgNames(args) !! Padding(pads)
    && hoisted <= pads[0].Keys && (forall y :: y in hoisted ==> pads[0][y] == Uninit)
  }

  lemma {:induction false} PrefixRun(m: Machine, h: Helper, args: seq<Expr>, i: nat, reserved: set<Name>,
                                     hoisted: set<Name>, st: State, pads: seq<Env>, own: bool) returns (left: Env)
    requires i <= |h.params| && Distinct(h.params) && BlockFor(args, hoisted, st, pads)
    requires Declared(PlanParams(h, args, i, reserved).prefix) <= hoisted
    ensures Refilled(pads[0], left, hoisted)
    ensures var plan := PlanParams(h, args, i, reserved);
      ArgsAgree(h, plan, i, hoisted, [left] + pads[1..],
                EvalArgs(m, args[..if i <= |args| then i else |args|], st, own),
                Exec(m, plan.prefix, PadState(st, pads), own))
    decreases i
  {
    if i == 0 {
      left := pads[0];
      assert [left] + pads[1..] == pads;
    } else {
      var before := PlanParams(h, args, i - 1, reserved);
      PlanParamsFacts(h, args, i - 1, reserved);
      ParamsSnoc(h, i);
      PrefixGrows(h, args, i, before);
      left := PrefixRun(m, h, args, i - 1, reserved, hoisted, st, pads, own);
      if i <= |args| {
        left := PrefixStep(m, h, args, i, reserved, hoisted, st, pads, own, before, left);
      } else {
        NoMoreArgs(m, h, args, i, hoisted, before, [left] + pads[1..], st, own,
                   Exec(m, before.prefix, PadState(st, pads), own));
      }
    }
  }

  /** A parameter without an argument is `undefined` on both sides. */
  lemma NoMoreArgs(m: Machine, h: Helper, args: seq<Expr>, i: nat, hoisted: set<Name>, before: Plan, pads: seq<Env>,
                   st: State, own: bool, done: Completion)
    requires |args| < i <= |h.params| && Distinct(h.params)
    requires forall x :: x in before.sigma ==> x in h.params[..i - 1]
    requires ArgsAgree(h, before, i - 1, hoisted, pads, EvalArgs(m, args[..|args|], st, own), done)
    ensures ArgsAgree(h, PlanParam(h, args, i - 1, before), i, hoisted, pads,
                      EvalArgs(m, args[..|args|], st, own), done)
  {
    ParamsSnoc(h, i);
    var after, passed := PlanParam(h, args, i - 1, before), EvalArgs(m, args[..|args|], st, own);
    if passed.Val? {
      forall j | 0 <= j < i && h.params[j] in after.sigma
        ensures Stands(after.sigma[h.params[j]], pads[0], ArgAt(passed.v, j))
      {
        if j < i - 1 { assert h.params[j] != h.params[i - 1]; }
      }
    }
  }

  /** One more argument is evaluated, and one more statement of the prefix runs. */
  lemma {:induction false} PrefixStep(m: Machine, h: Helper, args: seq<Expr>, i: nat, reserved: set<Name>,
                                      hoisted: set<Name>, st: State, pads: seq<Env>, own: bool, before: Plan,
                                      filled: Env) returns (left: Env)
    requires 0 < i <= |h.params| && i <= |args| && Distinct(h.params) && BlockFor(args, hoisted, st, pads)
    requires before == PlanParams(h, args, i - 1, reserved) && Refilled(pads[0], filled, hoisted)
    requires Declared(PlanParams(h, args, i, reserved).prefix) <= hoisted
    requires ArgsAgree(h, before, i - 1, hoisted, [filled] + pads[1..], EvalArgs(m, args[..i - 1], st, own),
                       Exec(m, before.prefix, PadState(st, pads), own))
    ensures Refilled(pads[0], left, hoisted)
    ensures var plan := PlanParams(h, args, i, reserved);
      ArgsAgree(h, plan, i, hoisted, [left] + pads[1..], EvalArgs(m, args[..i], st, own),
                Exec(m, plan.prefix, PadState(st, pads), own))
  {
    var a, b := EvalArgs(m, args[..i - 1], st, own), Exec(m, before.prefix, PadState(st, pads), own);
    PlanParamsFacts(h, args, i - 1, reserved);
    ParamsSnoc(h, i);
    PrefixOnce(m, h, args, i, before, PadState(st, pads), own);
    EvalArgsOnce(m, args, i, st, own);
    left := filled;
    if a.Val? {
      ArgNamesContain(args, i - 1);
      RefillFits(st.scopes, pads, filled);
      left := LoadOne(m, h, args, i, hoisted, before, a.v, a.st, [filled] + pads[1..], own);
      SameRest(filled, pads);
    }
  }

  lemma SameRest<T>(x: T, s: seq<T>)
    requires s != []
    ensures ([x] + s[1..])[1..] == s[1..] && ([x] + s[1..])[0] == x
  {
  }

  lemma PrefixOnce(m: Machine, h: Helper, args: seq<Expr>, i: nat, before: Plan, st: State, own: bool)
    requires 0 < i <= |h.params| && i <= |args|
    ensures Exec(m, PlanParam(h, args, i - 1, before).prefix, st, own)
         == Then(m, Exec(m, before.prefix, st, own), StatementFor(h, args, i, before), own)
  {
    PrefixGrows(h, args, i, before);
    ExecAppend(m, before.prefix, StatementFor(h, args, i, before), st, own);
  }

  lemma EvalArgsOnce(m: Machine, args: seq<Expr>, i: nat, st: State, own: bool)
    requires 0 < i <= |args|
    ensures EvalArgs(m, args[..i], st, own) ==
      match EvalArgs(m, args[..i - 1], st, own) {
        case Threw(err, st') => Threw(err, st')
        case Val(vs, st') =>
          match Eval(m, args[i - 1], st', own) {
            case Threw(err, st'') => Threw(err, st'')
            case Val(v, st'') => Val(vs + [v], st'')
          }
      }
  {
    assert args[..i] == args[..i - 1] + [args[i - 1]];
    EvalArgsSnoc(m, args[..i - 1], args[i - 1], st, own);
  }

  /** The statements the plan adds for parameter `i - 1`. */
  function StatementFor(h: Helper, args: seq<Expr>, i: nat, before: Plan): seq<Stmt>
    requires 0 < i <= |h.params| && i <= |args|
  {
    if Uses(h, h.params[i - 1]) then [Decl(Fresh(TEMP + h.params[i - 1], before.reserved), args[i - 1])]
    else if IsLiteral(args[i - 1]) then [] else [ExprS(args[i - 1])]
  }

  lemma PrefixGrows(h: Helper, args: seq<Expr>, i: nat, before: Plan)
    requires 0 < i <= |h.params|
    ensures var after := PlanParam(h, args, i - 1, before);
      after.prefix == if i <= |args| then before.prefix + StatementFor(h, args, i, before) else before.prefix
    ensures i <= |args| ==>
              (var temps := if Uses(h, h.params[i - 1]) then {Fresh(TEMP + h.params[i - 1], before.reserved)} else {};
               Declared(PlanParam(h, args, i - 1, before).prefix) == Declared(before.prefix) + temps)
  {
    if i <= |args| {
      var more := StatementFor(h, args, i, before);
      if more != [] { DeclaredSnoc(before.prefix, more[0]); }
    }
  }

  /** The temporaries planned so far. */
  ghost predicate TempsDeclared(plan: Plan) {
    && Declared(plan.prefix) <= plan.reserved
    && forall x :: x in plan.sigma ==>
         (plan.sigma[x].Var? && plan.sigma[x].x in Declared(plan.prefix)) || plan.sigma[x] == Lit(Undefined)
  }

  /** The statement planned for one more argument, run in the block, does what the call does with the argument. */
  ghost predicate LoadsOne(m: Machine, h: Helper, args: seq<Expr>, i: nat, hoisted: set<Name>, before: Plan,
                           vs: seq<Value>, st: State, pads: seq<Env>, left: Env, own: bool)
    requires 0 < i <= |h.params| && i <= |args| && Fitting(st.scopes, pads)
  {
    var done := Exec(m, StatementFor(h, args, i, before), PadState(st, pads), own);
    match Eval(m, args[i - 1], st, own)
    case Val(v, st') =>
      && Fitting(st'.scopes, [left] + pads[1..]) && done == Normal(PadState(st', [left] + pads[1..]))
      && Loaded(left, hoisted, h, PlanParam(h, args, i - 1, before), i, vs + [v])
    case Threw(err, st') => done.Thrown? && done.err == err && done.st.sh == st'.sh
  }

  lemma {:induction false} LoadOne(m: Machine, h: Helper, args: seq<Expr>, i: nat, hoisted: set<Name>, before: Plan,
                                   vs: seq<Value>, st: State, pads: seq<Env>, own: bool) returns (left: Env)
    requires 0 < i <= |h.params| && i <= |args| && Distinct(h.params) && |vs| == i - 1
    requires TempsDeclared(before) && h.params[i - 1] !in before.sigma
    requires Declared(PlanParam(h, args, i - 1, before).prefix) <= hoisted
    requires Fitting(st.scopes, pads) && Names(args[i - 1]) !! Padding(pads)
    requires Loaded(pads[0], hoisted, h, before, i - 1, vs)
    ensures Refilled(pads[0], left, hoisted) && LoadsOne(m, h, args, i, hoisted, before, vs, st, pads, left, own)
  {
    EvalPadded(m, args[i - 1], st, pads, own);
    PrefixGrows(h, args, i, before);
    left := pads[0];
    assert [left] + pads[1..] == pads;
    if Uses(h, h.params[i - 1]) {
      left := LoadTemp(m, h, args, i, hoisted, before, vs, st, pads, own);
    } else {
      LoadNothing(m, h, args, i, hoisted, before, vs, st, pads, own);
    }
  }

  /** A used argument is stored in its temporary. */
  lemma {:induction false} LoadTemp(m: Machine, h: Helper, args: seq<Expr>, i: nat, hoisted: set<Name>, before: Plan,
                                    vs: seq<Value>, st: State, pads: seq<Env>, own: bool) returns (left: Env)
    requires 0 < i <= |h.params| && i <= |args| && Distinct(h.params) && |vs| == i - 1 && Uses(h, h.params[i - 1])
    requires TempsDeclared(before)
    requires Declared(PlanParam(h, args, i - 1, before).prefix)
          == Declared(before.prefix) + {Fresh(TEMP + h.params[i - 1], before.reserved)}
    requires Declared(PlanParam(h, args, i - 1, before).prefix) <= hoisted
    requires Fitting(st.scopes, pads) && Loaded(pads[0], hoisted, h, before, i - 1, vs)
    requires var o := Eval(m, args[i - 1], st, own);
      Fitting(o.st.scopes, pads) && Eval(m, args[i - 1], PadState(st, pads), own) == PadOutcome(o, pads)
    ensures Refilled(pads[0], left, hoisted) && LoadsOne(m, h, args, i, hoisted, before, vs, st, pads, left, own)
  {
    var o := Eval(m, args[i - 1], st, own);
    var temp := Fresh(TEMP + h.params[i - 1], before.reserved);
    left := pads[0];
    assert [left] + pads[1..] == pads;
    assert [Decl(temp, args[i - 1])][1..] == [];
    if o.Val? {
      StoreAdded(o.st.scopes, pads, temp, o.v);
      left := pads[0][temp := Init(o.v)];
      LoadedAfterTemp(pads[0], hoisted, h, before, PlanParam(h, args, i - 1, before), i, vs, o.v, temp);
    }
  }

  /** An unused argument is evaluated, unless it is a literal. */
  lemma {:induction false} LoadNothing(m: Machine, h: Helper, args: seq<Expr>, i: nat, hoisted: set<Name>, before: Plan,
                                       vs: seq<Value>, st: State, pads: seq<Env>, own: bool)
    requires 0 < i <= |h.params| && i <= |args| && Distinct(h.params) && |vs| == i - 1 && !Uses(h, h.params[i - 1])
    requires h.params[i - 1] !in before.sigma
    requires Declared(PlanParam(h, args, i - 1, before).prefix) == Declared(before.prefix)
    requires Fitting(st.scopes, pads) && Loaded(pads[0], hoisted, h, before, i - 1, vs)
    requires var o := Eval(m, args[i - 1], st, own);
      Fitting(o.st.scopes, pads) && Eval(m, args[i - 1], PadState(st, pads), own) == PadOutcome(o, pads)
    ensures LoadsOne(m, h, args, i, hoisted, before, vs, st, pads, pads[0], own)
  {
    var e, o := args[i - 1], Eval(m, args[i - 1], st, own);
    assert [pads[0]] + pads[1..] == pads;
    if IsLiteral(e) { LiteralIsInert(m, e, st, own); } else { assert [ExprS(e)][1..] == []; }
    if o.Val? { LoadedStays(pads[0], hoisted, h, before, PlanParam(h, args, i - 1, before), i, vs, o.v); }
  }

  lemma LoadedStays(env: Env, hoisted: set<Name>, h: Helper, before: Plan, after: Plan, i: nat, vs: seq<Value>,
                    v: Value)
    requires 0 < i <= |h.params| && |vs| == i - 1 && Distinct(h.params)
    requires Loaded(env, hoisted, h, before, i - 1, vs)
    requires after.sigma == before.sigma && h.params[i - 1] !in before.sigma
    requires Declared(after.prefix) == Declared(before.prefix)
    ensures Loaded(env, hoisted, h, after, i, vs + [v])
  {
    forall j | 0 <= j < i && h.params[j] in after.sigma
      ensures Stands(after.sigma[h.params[j]], env, ArgAt(vs + [v], j))
    {
      assert j < i - 1;
      assert ArgAt(vs + [v], j) == ArgAt(vs, j);
    }
  }

  lemma LoadedAfterTemp(env: Env, hoisted: set<Name>, h: Helper, before: Plan, after: Plan, i: nat, vs: seq<Value>,
                        v: Value, temp: Name)
    requires 0 < i <= |h.params| && |vs| == i - 1 && Distinct(h.params) && TempsDeclared(before)
    requires Loaded(env, hoisted, h, before, i - 1, vs)
    requires temp in hoisted && temp !in Declared(before.prefix)
    requires after.sigma == before.sigma[h.params[i - 1] := Var(temp)]
    requires Declared(after.prefix) == Declared(before.prefix) + {temp}
    ensures Loaded(env[temp := Init(v)], hoisted, h, after, i, vs + [v])
  {
    forall j | 0 <= j < i && h.params[j] in after.sigma
      ensures Stands(after.sigma[h.params[j]], env[temp := Init(v)], ArgAt(vs + [v], j))
    {
      if j < i - 1 {
        assert h.params[j] != h.params[i - 1];
        assert ArgAt(vs + [v], j) == ArgAt(vs, j);
        assert Stands(before.sigma[h.params[j]], env, ArgAt(vs, j));
      }
    }
  }

  // ---- the tail's own locals ----

  /** Facts about the locals `done` of a guardless tail: each ends up under a name of its own that the
      block did not use. */
  ghost predicate LocalFacts(done: set<Name>, start: Plan, plan: Plan) {
    && plan.prefix == start.prefix && start.reserved <= plan.reserved
    && (forall x :: x in start.sigma ==> x in plan.sigma && plan.sigma[x] == start.sigma[x])
    && (forall x :: x in plan.sigma && x !in start.sigma ==> x in done && plan.sigma[x].Var?)
    && (forall x :: x in done ==> Target(x, plan.sigma) in plan.reserved - start.reserved)
    && OneToOne(done, plan.sigma)
  }

  ghost predicate OneToOne(done: set<Name>, sigma: Subst) {
    forall x, y :: x in done && y in done && Target(x, sigma) == Target(y, sigma) ==> x == y
  }

  lemma LocalStep(done: set<Name>, start: Plan, plan: Plan, x: Name)
    requires LocalFacts(done, start, plan) && x !in done && x !in start.sigma
    ensures x !in plan.reserved ==> LocalFacts(done + {x}, start, plan.(reserved := plan.reserved + {x}))
    ensures x in plan.reserved ==>
      (var renamed := Fresh(x, plan.reserved);
       LocalFacts(done + {x}, start,
                  plan.(sigma := plan.sigma[x := Var(renamed)], reserved := plan.reserved + {renamed})))
  {
    assert x !in plan.sigma;
    if x in plan.reserved {
      var sigma := plan.sigma[x := Var(Fresh(x, plan.reserved))];
      forall y | y in done ensures Target(y, sigma) == Target(y, plan.sigma) {}
    }
  }

  /** The turn for one statement of the tail. */
  lemma PlanLocalFacts(before: seq<Stmt>, tail: seq<Stmt>, i: nat, start: Plan, plan: Plan)
    requires i < |tail| && LocalFacts(Declared(before), start, plan)
    requires tail[i].Decl? ==> tail[i].x !in start.sigma && tail[i].x !in Declared(before)
    ensures LocalFacts(Declared(before + [tail[i]]), start, PlanLocal(tail, i, plan))
  {
    DeclaredSnoc(before, tail[i]);
    if tail[i].Decl? { LocalStep(Declared(before), start, plan, tail[i].x); }
  }

  lemma LocalIsNew(tail: seq<Stmt>, i: nat)
    requires i < |tail| && DistinctLocals(tail) && tail[i].Decl?
    ensures tail[i].x in Declared(tail) && tail[i].x !in Declared(tail[..i])
  {
    assert tail[i] in tail;
  }

  lemma {:induction false} PlanLocalsFacts(tail: seq<Stmt>, i: nat, start: Plan)
    requires i <= |tail| && DistinctLocals(tail) && start.sigma.Keys !! Declared(tail)
    ensures LocalFacts(Declared(tail[..i]), start, PlanLocals(tail, i, start))
    decreases i
  {
    if i > 0 {
      PlanLocalsFacts(tail, i - 1, start);
      assert tail[..i] == tail[..i - 1] + [tail[i - 1]];
      if tail[i - 1].Decl? { LocalIsNew(tail, i - 1); }
      PlanLocalFacts(tail[..i - 1], tail, i - 1, start, PlanLocals(tail, i - 1, start));
    }
  }

  lemma {:induction false} DeclaredOfSubst(ss: seq<Stmt>, sigma: Subst)
    ensures Declared(SubstStmts(ss, sigma)) == set x | x in Declared(ss) :: Target(x, sigma)
  {
    if ss != [] {
      DeclaredOfSubst(ss[1..], sigma);
      DeclaredCons(ss[0], ss[1..]);
      assert [ss[0]] + ss[1..] == ss;
      DeclaredCons(SubstStmt(ss[0], sigma), SubstStmts(ss[1..], sigma));
    }
  }

  // ---- the guards ----

  lemma {:induction false} ReturnFreeExec(m: Machine, ss: seq<Stmt>, st: State, own: bool)
    requires ReturnFree(ss)
    ensures !Exec(m, ss, st, own).Returned?
    decreases ss, 0
  {
    if ss != [] {
      ReturnFreeExecOne(m, ss[0], st, own);
      var o := ExecOne(m, ss[0], st, own);
      if o.Normal? { ReturnFreeExec(m, ss[1..], o.st, own); }
    }
  }

  lemma {:induction false} ReturnFreeExecOne(m: Machine, s: Stmt, st: State, own: bool)
    requires ReturnFreeOne(s)
    ensures !ExecOne(m, s, st, own).Returned?
    decreases s, 2
  {
    if s.If? || s.IfElse? {
      var o := Eval(m, s.c, st, own);
      if o.Val? {
        ReturnFreeExec(m, s.thn, o.st.(scopes := Push(o.st.scopes, Declared(s.thn))), own);
        if s.IfElse? { ReturnFreeExec(m, s.els, o.st.(scopes := Push(o.st.scopes, Declared(s.els))), own); }
      }
    }
  }

  /** Running a helper's body is running its guards and, if none returned, its tail. */
  lemma {:induction false} BodyRun(m: Machine, body: seq<Stmt>, st: State, own: bool)
    ensures Exec(m, body, st, own) ==
      match RunGuards(m, Guards(body), map[], st, own) {
        case Passed(st') => Exec(m, Tail(body), st', own)
        case Stopped(st') => Returned(st')
        case Raised(err, st') => Thrown(err, st')
      }
  {
    if body != [] && AsGuard(body[0]).Some? {
      var g := AsGuard(body[0]).value;
      SubstNothing(g);
      assert Guards(body)[0] == g && Guards(body)[1..] == Guards(body[1..]);
      var o := Eval(m, g, st, own);
      if o.Val? {
        if Truthy(o.v) {
          assert Declared([Return]) == {};
          assert ExecBlock(m, [Return], o.st, own) == Returned(o.st);
        } else {
          BodyRun(m, body[1..], o.st, own);
        }
      }
    }
  }

  lemma {:induction false} GuardsDeclareNothing(body: seq<Stmt>)
    ensures Declared(body) == Declared(Tail(body))
  {
    if body != [] && AsGuard(body[0]).Some? {
      GuardsDeclareNothing(body[1..]);
      DeclaredCons(body[0], body[1..]);
      assert [body[0]] + body[1..] == body;
    }
  }

  /** Guards that assign no bound name leave the frame alone. */
  lemma {:induction false} GuardsKeepScopes(m: Machine, guards: seq<Expr>, sigma: Subst, st: State, own: bool)
    requires Plain(sigma) && forall x :: x in ArgWrites(guards) ==> Find(st.scopes, Target(x, sigma)).None?
    ensures RunGuards(m, guards, sigma, st, own).st.scopes == st.scopes
  {
    if guards != [] {
      var g := SubstExpr(guards[0], sigma);
      WritesOfSubst(guards[0], sigma);
      forall y | y in Writes(g) ensures Find(st.scopes, y).None? { assert y in Targets(Writes(guards[0]), sigma); }
      EvalKeepsScopes(m, g, st, own);
      var o := Eval(m, g, st, own);
      if o.Val? && !Truthy(o.v) { GuardsKeepScopes(m, guards[1..], sigma, o.st, own); }
    }
  }

  // ---- what renamed code assigns ----

  function Targets(xs: set<Name>, sigma: Subst): set<Name> { set x | x in xs :: Target(x, sigma) }

  lemma TargetsUnion(xs: set<Name>, ys: set<Name>, sigma: Subst)
    ensures Targets(xs + ys, sigma) == Targets(xs, sigma) + Targets(ys, sigma)
  {
    forall z | z in Targets(xs, sigma) + Targets(ys, sigma) ensures z in Targets(xs + ys, sigma) {
      var x :| x in xs + ys && z == Target(x, sigma);
    }
  }

  lemma {:induction false} WritesOfSubst(e: Expr, sigma: Subst)
    requires Plain(sigma)
    ensures Writes(SubstExpr(e, sigma)) <= Targets(Writes(e), sigma)
    decreases e, 1
  {
    match e
    case Lit(_) =>
    case Var(_) =>
    case Paren(e') => WritesOfSubst(e', sigma);
    case Not(e') => WritesOfSubst(e', sigma);
    case Bin(_, l, r) =>
      WritesOfSubst(l, sigma);
      WritesOfSubst(r, sigma);
      TargetsUnion(Writes(l), Writes(r), sigma);
    case Assign(x, e') =>
      WritesOfSubst(e', sigma);
      TargetsUnion({x}, Writes(e'), sigma);
      assert Target(x, sigma) in Targets({x}, sigma);
    case Call(_, args) => ArgWritesOfSubst(args, sigma);
  }

  lemma {:induction false} ArgWritesOfSubst(args: seq<Expr>, sigma: Subst)
    requires Plain(sigma)
    ensures ArgWrites(SubstArgs(args, sigma)) <= Targets(ArgWrites(args), sigma)
    decreases args, 0
  {
    if args != [] {
      WritesOfSubst(args[0], sigma);
      ArgWritesOfSubst(args[1..], sigma);
      TargetsUnion(Writes(args[0]), ArgWrites(args[1..]), sigma);
      assert SubstArgs(args, sigma)[1..] == SubstArgs(args[1..], sigma);
    }
  }

  lemma {:induction false} AltersOfSubst(ss: seq<Stmt>, sigma: Subst)
    requires Plain(sigma)
    ensures Alters(SubstStmts(ss, sigma)) <= Targets(Alters(ss), sigma)
    decreases ss, 0
  {
    if ss != [] {
      AltersOneOfSubst(ss[0], sigma);
      AltersOfSubst(ss[1..], sigma);
      TargetsUnion(AltersOne(ss[0]), Alters(ss[1..]), sigma);
      assert SubstStmts(ss, sigma)[1..] == SubstStmts(ss[1..], sigma);
    }
  }

  lemma {:induction false} AltersOneOfSubst(s: Stmt, sigma: Subst)
    requires Plain(sigma)
    ensures AltersOne(SubstStmt(s, sigma)) <= Targets(AltersOne(s), sigma)
    decreases s, 2
  {
    match s
    case ExprS(e) => WritesOfSubst(e, sigma);
    case Decl(x, e) =>
      WritesOfSubst(e, sigma);
      TargetsUnion({x}, Writes(e), sigma);
      assert Target(x, sigma) in Targets({x}, sigma);
    case If(c, thn) =>
      WritesOfSubst(c, sigma);
      AlteredByBlockOfSubst(thn, sigma);
      TargetsUnion(Writes(c), AlteredByBlock(thn), sigma);
    case IfElse(c, thn, els) =>
      WritesOfSubst(c, sigma);
      AlteredByBlockOfSubst(thn, sigma);
      AlteredByBlockOfSubst(els, sigma);
      TargetsUnion(Writes(c), AlteredByBlock(thn), sigma);
      TargetsUnion(Writes(c) + AlteredByBlock(thn), AlteredByBlock(els), sigma);
    case Return =>
  }

  lemma {:induction false} AlteredByBlockOfSubst(ss: seq<Stmt>, sigma: Subst)
    requires Plain(sigma)
    ensures AlteredByBlock(SubstBlock(ss, sigma)) <= Targets(AlteredByBlock(ss), sigma)
    decreases ss, 1
  {
    var inner := sigma - Declared(ss);
    AltersOfSubst(ss, inner);
    SubstKeepsDeclared(ss, inner);
    forall y | y in AlteredByBlock(SubstBlock(ss, sigma)) ensures y in Targets(AlteredByBlock(ss), sigma) {
      assert y in Targets(Alters(ss), inner);
      var x :| x in Alters(ss) && y == Target(x, inner);
      assert x !in Declared(ss) && Target(x, sigma) == y;
    }
  }

  lemma {:induction false} AltersAreMentioned(ss: seq<Stmt>)
    ensures Alters(ss) <= Mentions(ss)
    decreases ss, 0
  {
    if ss != [] {
      AltersOneAreMentioned(ss[0]);
      AltersAreMentioned(ss[1..]);
    }
  }

  lemma {:induction false} AltersOneAreMentioned(s: Stmt)
    ensures AltersOne(s) <= MentionsOne(s)
    decreases s, 2
  {
    match s
    case ExprS(e) => WritesAreNames(e);
    case Decl(_, e) => WritesAreNames(e);
    case If(c, thn) => WritesAreNames(c); AltersAreMentioned(thn);
    case IfElse(c, thn, els) => WritesAreNames(c); AltersAreMentioned(thn); AltersAreMentioned(els);
    case Return =>
  }

  predicate SameRun(c: Context, a: GuardRun, b: GuardRun) {
    match a
    case Passed(st) => b.Passed? && Alike(c, st, b.st)
    case Stopped(st) => b.Stopped? && b.st.sh == st.sh
    case Raised(err, st) => b.Raised? && b.err == err && b.st.sh == st.sh
  }

  lemma {:induction false} ComparableAlike(m: Machine, e: Expr, c: Context, a: State, b: State)
    requires Alike(c, a, b) && c.SeesAll(Names(e)) && Alterable(Writes(e), c.Live())
    requires Comparable(m, e, map[], a, c.own)
    ensures Comparable(m, e, c.Live(), b, c.site)
    decreases e
  {
    match e
    case Paren(e') => ComparableAlike(m, e', c, a, b);
    case Bin(op, l, r) =>
      SubstNothing(l);
      SubstNothing(r);
      EvalAlike(m, l, c, a, b);
      var o, o' := Eval(m, l, a, c.own), Eval(m, SubstExpr(l, c.Live()), b, c.site);
      if o.Val? && IsRelational(op) { EvalAlike(m, r, c, o.st, o'.st); }
      if op == And || op == Or {
        ComparableAlike(m, l, c, a, b);
        if o.Val? && Truthy(o.v) == (op == And) { ComparableAlike(m, r, c, o.st, o'.st); }
      }
    case _ =>
  }

  lemma {:induction false} GuardsAlike(m: Machine, guards: seq<Expr>, c: Context, a: State, b: State)
    requires Alike(c, a, b) && c.SeesAll(ArgNames(guards)) && Alterable(ArgWrites(guards), c.Live())
    requires ComparableRun(m, guards, map[], a, c.own)
    ensures SameRun(c, RunGuards(m, guards, map[], a, c.own), RunGuards(m, guards, c.Live(), b, c.site))
    ensures ComparableRun(m, guards, c.Live(), b, c.site)
  {
    if guards != [] {
      SubstNothing(guards[0]);
      EvalAlike(m, guards[0], c, a, b);
      ComparableAlike(m, guards[0], c, a, b);
      var o, o' := Eval(m, guards[0], a, c.own), Eval(m, SubstExpr(guards[0], c.Live()), b, c.site);
      if o.Val? && !Truthy(o.v) { GuardsAlike(m, guards[1..], c, o.st, o'.st); }
    }
  }
}
