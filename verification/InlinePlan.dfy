/** What the inliner accepts, and the replacement it builds for one call (strict effects). */
module InlinePlan {
  import opened Basics
  import opened JsLang
  import opened JsText
  import opened GuardInversion
  import opened FreshNames
  import opened Renaming

  datatype Helper = Helper(params: seq<Name>, body: seq<Stmt>)

  // ---- analysis ----

  /** `if (cond) return;` without an `else`. */
  function AsGuard(s: Stmt): Option<Expr> {
    if s.If? && s.thn == [Return] then Some(s.c) else None
  }

  function Guards(body: seq<Stmt>): seq<Expr> {
    if body != [] && AsGuard(body[0]).Some? then [AsGuard(body[0]).value] + Guards(body[1..]) else []
  }

  function Tail(body: seq<Stmt>): seq<Stmt> {
    if body != [] && AsGuard(body[0]).Some? then Tail(body[1..]) else body
  }

  /** The leading guard clauses and the statements after them. */
  method Partition(body: seq<Stmt>) returns (guards: seq<Expr>, tail: seq<Stmt>)
    ensures guards == Guards(body) && tail == Tail(body)
  {
    guards := [];
    var i := 0;
    while i < |body| && AsGuard(body[i]).Some?
      invariant 0 <= i <= |body|
      invariant Guards(body) == guards + Guards(body[i..])
      invariant Tail(body) == Tail(body[i..])
    {
      guards := guards + [AsGuard(body[i]).value];
      assert body[i..][1..] == body[i + 1..];
      i := i + 1;
    }
    tail := body[i..];
  }

  predicate ReturnFree(ss: seq<Stmt>)
    decreases ss, 0
  {
    ss == [] || (ReturnFreeOne(ss[0]) && ReturnFree(ss[1..]))
  }

  predicate ReturnFreeOne(s: Stmt)
    decreases s, 2
  {
    match s
    case If(_, thn) => ReturnFree(thn)
    case IfElse(_, thn, els) => ReturnFree(thn) && ReturnFree(els)
    case Return => false
    case _ => true
  }

  function GuardNames(guards: seq<Expr>): set<Name> { ArgNames(guards) }

  function Params(h: Helper): set<Name> { set p | p in h.params }

  /** Names the body refers to that no inner declaration captures; the helper's own locals included. */
  function Vocabulary(h: Helper): set<Name> {
    GuardNames(Guards(h.body)) + Mentions(Tail(h.body))
  }

  function Locals(h: Helper): set<Name> { Declared(Tail(h.body)) }

  predicate Uses(h: Helper, p: Name) {
    p in GuardNames(Guards(h.body)) + FreeInBlock(Tail(h.body))
  }

  predicate Distinct<T(==)>(s: seq<T>) {
    forall i, j :: 0 <= i < j < |s| ==> s[i] != s[j]
  }

  /** What JavaScript's own early errors guarantee. */
  predicate LegalHelper(h: Helper) {
    && Distinct(h.params)
    && (forall p :: p in h.params ==> p !in Locals(h))
    && AllParsed(Guards(h.body))
    && LegalBlock(Tail(h.body))
  }

  predicate DistinctLocals(tail: seq<Stmt>) {
    forall i, j :: 0 <= i < j < |tail| && tail[i].Decl? && tail[j].Decl? ==> tail[i].x != tail[j].x
  }

  /** No block declares a name twice. */
  predicate LegalBlock(ss: seq<Stmt>)
    decreases ss, 1
  {
    DistinctLocals(ss) && LegalInside(ss)
  }

  predicate LegalInside(ss: seq<Stmt>)
    decreases ss, 0
  {
    ss == [] || (LegalInOne(ss[0]) && LegalInside(ss[1..]))
  }

  predicate LegalInOne(s: Stmt)
    decreases s, 2
  {
    match s
    case If(_, thn) => LegalBlock(thn)
    case IfElse(_, thn, els) => LegalBlock(thn) && LegalBlock(els)
    case _ => true
  }

  /** The statements may stand in the body of a function with these parameters. A block of its own
      has none. */
  predicate LegalAmong(ss: seq<Stmt>, params: set<Name>) {
    LegalBlock(ss) && Declared(ss) !! params
  }

  /** The checks of the analysis that concern the fragment. */
  predicate Accepted(h: Helper, maxStatements: nat) {
    && 0 < |Tail(h.body)| <= maxStatements
    && ReturnFree(Tail(h.body))
    && forall p :: p in h.params ==> p !in ArgWrites(Guards(h.body)) + Alters(Tail(h.body))
  }

  /** The names the tool takes for free: every identifier that is neither a parameter nor
      declared anywhere in the body. */
  function FreeNames(h: Helper): set<Name> {
    Vocabulary(h) - Params(h) - DeclaredInBlock(Tail(h.body))
  }

  predicate CallSiteShadows(h: Helper, scope: set<Name>) {
    FreeNames(h) * scope != {}
  }

  // ---- the replacement ----

  datatype Plan = Plan(prefix: seq<Stmt>, sigma: Subst, reserved: set<Name>)

  predicate IsLiteral(e: Expr) {
    e.Lit? || (e.Paren? && IsLiteral(e.e))
  }

  const TEMP := "__inl_"

  /** Plans parameter `i`: an unused argument is evaluated unless it is a literal, a used one is
      hoisted into a temporary, and a missing one becomes `undefined`. */
  function PlanParam(h: Helper, args: seq<Expr>, i: nat, plan: Plan): Plan
    requires i < |h.params|
  {
    var p := h.params[i];
    if !Uses(h, p) then
      if i < |args| && !IsLiteral(args[i]) then plan.(prefix := plan.prefix + [ExprS(args[i])]) else plan
    else if i >= |args| then plan.(sigma := plan.sigma[p := Lit(Undefined)])
    else
      var temp := Fresh(TEMP + p, plan.reserved);
      Plan(plan.prefix + [Decl(temp, args[i])], plan.sigma[p := Var(temp)], plan.reserved + {temp})
  }

  function PlanParams(h: Helper, args: seq<Expr>, i: nat, reserved: set<Name>): Plan
    requires i <= |h.params|
  {
    if i == 0 then Plan([], map[], reserved)
    else PlanParam(h, args, i - 1, PlanParams(h, args, i - 1, reserved))
  }

  /** Plans tail statement `i`: a local whose name is taken in the target block gets a fresh one. */
  function PlanLocal(tail: seq<Stmt>, i: nat, plan: Plan): Plan
    requires i < |tail|
  {
    if !tail[i].Decl? then plan
    else
      var x := tail[i].x;
      if x !in plan.reserved then plan.(reserved := plan.reserved + {x})
      else
        var renamed := Fresh(x, plan.reserved);
        plan.(sigma := plan.sigma[x := Var(renamed)], reserved := plan.reserved + {renamed})
  }

  function PlanLocals(tail: seq<Stmt>, i: nat, plan: Plan): Plan
    requires i <= |tail|
  {
    if i == 0 then plan else PlanLocal(tail, i - 1, PlanLocals(tail, i - 1, plan))
  }

  function FullPlan(h: Helper, args: seq<Expr>, reserved: set<Name>): Plan {
    var plan := PlanParams(h, args, |h.params|, reserved);
    if Guards(h.body) != [] then plan else PlanLocals(Tail(h.body), |Tail(h.body)|, plan)
  }

  datatype Replacement = Replacement(prefix: seq<Stmt>, condition: Option<Text>, tail: seq<Stmt>)

  function ReplacementOf(h: Helper, plan: Plan): Replacement {
    var guards := Guards(h.body);
    Replacement(plan.prefix,
                if guards == [] then None else Some(CombineGuards(guards, plan.sigma)),
                SubstStmts(Tail(h.body), plan.sigma))
  }

  /** The names a replacement adds to the target block. */
  function Added(plan: Plan, before: set<Name>): set<Name> { plan.reserved - before }

  method BuildReplacement(h: Helper, args: seq<Expr>, reserved: set<Name>)
    returns (r: Replacement, taken: set<Name>)
    ensures r == ReplacementOf(h, FullPlan(h, args, reserved))
    ensures taken == FullPlan(h, args, reserved).reserved
  {
    var guards, tail := Partition(h.body);
    var prefix: seq<Stmt>, sigma: Subst := [], map[];
    taken := reserved;
    for i := 0 to |h.params|
      invariant Plan(prefix, sigma, taken) == PlanParams(h, args, i, reserved)
    {
      var p := h.params[i];
      if !Uses(h, p) {
        if i < |args| && !IsLiteral(args[i]) { prefix := prefix + [ExprS(args[i])]; }
      } else if i >= |args| {
        sigma := sigma[p := Lit(Undefined)];
      } else {
        var temp := FreshName(TEMP + p, taken);
        taken := taken + {temp};
        prefix := prefix + [Decl(temp, args[i])];
        sigma := sigma[p := Var(temp)];
      }
    }
    if guards != [] {
      r := Replacement(prefix, Some(CombineGuards(guards, sigma)), SubstStmts(tail, sigma));
      return;
    }
    ghost var plan := Plan(prefix, sigma, taken);
    for i := 0 to |tail|
      invariant Plan(prefix, sigma, taken) == PlanLocals(tail, i, plan)
    {
      if tail[i].Decl? {
        var x := tail[i].x;
        if x !in taken {
          taken := taken + {x};
        } else {
          var renamed := FreshName(x, taken);
          taken := taken + {renamed};
          sigma := sigma[x := Var(renamed)];
        }
      }
    }
    r := Replacement(prefix, None, SubstStmts(tail, sigma));
  }
}
