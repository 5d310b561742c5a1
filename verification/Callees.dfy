/** The functions that code calls: machines that agree on these run it alike. */
module Callees {
  import opened JsLang
  import opened GuardInversion
  import opened JsText
  import opened Renaming
  import opened InlinePlan
  import opened InlineCorrect

  function CalleesOf(e: Expr): set<Name>
    decreases e, 1
  {
    match e
    case Lit(_) => {}
    case Var(_) => {}
    case Paren(e') => CalleesOf(e')
    case Not(e') => CalleesOf(e')
    case Bin(_, l, r) => CalleesOf(l) + CalleesOf(r)
    case Assign(_, e') => CalleesOf(e')
    case Call(f, args) => {f} + CalleesOfAll(args)
  }

  function CalleesOfAll(args: seq<Expr>): set<Name>
    decreases args, 0
  {
    if args == [] then {} else CalleesOf(args[0]) + CalleesOfAll(args[1..])
  }

  function CalleesIn(ss: seq<Stmt>): set<Name>
    decreases ss, 0
  {
    if ss == [] then {} else CalleesInOne(ss[0]) + CalleesIn(ss[1..])
  }

  function CalleesInOne(s: Stmt): set<Name>
    decreases s, 2
  {
    match s
    case ExprS(e) => CalleesOf(e)
    case Decl(_, e) => CalleesOf(e)
    case If(c, thn) => CalleesOf(c) + CalleesIn(thn)
    case IfElse(c, thn, els) => CalleesOf(c) + CalleesIn(thn) + CalleesIn(els)
    case Return => {}
  }

  /** The machines differ at most in what calls of other functions than these do. */
  ghost predicate AgreeOn(m: Machine, n: Machine, names: set<Name>) {
    && n == m.(call := n.call)
    && forall f, vs, sh :: f in names ==> m.call(f, vs, sh) == n.call(f, vs, sh)
  }

  lemma {:induction false} EvalAgrees(m: Machine, n: Machine, e: Expr, st: State, own: bool)
    requires AgreeOn(m, n, CalleesOf(e))
    ensures Eval(m, e, st, own) == Eval(n, e, st, own)
    decreases e, 1
  {
    match e
    case Lit(_) =>
    case Var(_) =>
    case Paren(e') => EvalAgrees(m, n, e', st, own);
    case Not(e') => EvalAgrees(m, n, e', st, own);
    case Bin(op, l, r) =>
      EvalAgrees(m, n, l, st, own);
      EvalAgrees(m, n, r, Eval(m, l, st, own).st, own);
    case Assign(_, e') => EvalAgrees(m, n, e', st, own);
    case Call(_, args) => EvalArgsAgrees(m, n, args, st, own);
  }

  lemma {:induction false} EvalArgsAgrees(m: Machine, n: Machine, args: seq<Expr>, st: State, own: bool)
    requires AgreeOn(m, n, CalleesOfAll(args))
    ensures EvalArgs(m, args, st, own) == EvalArgs(n, args, st, own)
    decreases args, 0
  {
    if args != [] {
      EvalAgrees(m, n, args[0], st, own);
      EvalArgsAgrees(m, n, args[1..], Eval(m, args[0], st, own).st, own);
    }
  }

  lemma {:induction false} ExecAgrees(m: Machine, n: Machine, ss: seq<Stmt>, st: State, own: bool)
    requires AgreeOn(m, n, CalleesIn(ss))
    ensures Exec(m, ss, st, own) == Exec(n, ss, st, own)
    decreases ss, 0
  {
    if ss != [] {
      ExecOneAgrees(m, n, ss[0], st, own);
      ExecAgrees(m, n, ss[1..], ExecOne(m, ss[0], st, own).st, own);
    }
  }

  lemma {:induction false} ExecOneAgrees(m: Machine, n: Machine, s: Stmt, st: State, own: bool)
    requires AgreeOn(m, n, CalleesInOne(s))
    ensures ExecOne(m, s, st, own) == ExecOne(n, s, st, own)
    decreases s, 2
  {
    match s
    case ExprS(e) => EvalAgrees(m, n, e, st, own);
    case Decl(_, e) => EvalAgrees(m, n, e, st, own);
    case If(c, thn) =>
      EvalAgrees(m, n, c, st, own);
      var inside := Eval(m, c, st, own).st;
      ExecAgrees(m, n, thn, inside.(scopes := Push(inside.scopes, Declared(thn))), own);
    case IfElse(c, thn, els) =>
      EvalAgrees(m, n, c, st, own);
      var inside := Eval(m, c, st, own).st;
      ExecAgrees(m, n, thn, inside.(scopes := Push(inside.scopes, Declared(thn))), own);
      ExecAgrees(m, n, els, inside.(scopes := Push(inside.scopes, Declared(els))), own);
    case Return =>
  }

  lemma HelperAgrees(m: Machine, n: Machine, h: Helper, vs: seq<Value>, sh: Shared)
    requires AgreeOn(m, n, CalleesIn(h.body))
    ensures RunHelper(m, h, vs, sh) == RunHelper(n, h, vs, sh)
  {
    var st := State(Base(Bind(h.params, vs)), sh);
    ExecAgrees(m, n, h.body, st.(scopes := Push(st.scopes, Declared(h.body))), true);
  }

  // ---- what rewriting leaves of the calls ----

  lemma {:induction false} SubstCallees(e: Expr, sigma: Subst)
    requires Plain(sigma)
    ensures CalleesOf(SubstExpr(e, sigma)) == CalleesOf(e)
    decreases e, 1
  {
    match e
    case Lit(_) =>
    case Var(_) =>
    case Paren(e') => SubstCallees(e', sigma);
    case Not(e') => SubstCallees(e', sigma);
    case Bin(_, l, r) =>
      SubstCallees(l, sigma);
      SubstCallees(r, sigma);
    case Assign(_, e') => SubstCallees(e', sigma);
    case Call(_, args) => SubstArgsCallees(args, sigma);
  }

  lemma {:induction false} SubstArgsCallees(args: seq<Expr>, sigma: Subst)
    requires Plain(sigma)
    ensures CalleesOfAll(SubstArgs(args, sigma)) == CalleesOfAll(args)
    decreases args, 0
  {
    if args != [] {
      SubstCallees(args[0], sigma);
      SubstArgsCallees(args[1..], sigma);
    }
  }

  lemma {:induction false} SubstStmtsCallees(ss: seq<Stmt>, sigma: Subst)
    requires Plain(sigma)
    ensures CalleesIn(SubstStmts(ss, sigma)) == CalleesIn(ss)
    decreases ss, 0
  {
    if ss != [] {
      SubstStmtCallees(ss[0], sigma);
      SubstStmtsCallees(ss[1..], sigma);
    }
  }

  lemma {:induction false} SubstStmtCallees(s: Stmt, sigma: Subst)
    requires Plain(sigma)
    ensures CalleesInOne(SubstStmt(s, sigma)) == CalleesInOne(s)
    decreases s, 2
  {
    match s
    case ExprS(e) => SubstCallees(e, sigma);
    case Decl(_, e) => SubstCallees(e, sigma);
    case If(c, thn) =>
      SubstCallees(c, sigma);
      SubstStmtsCallees(thn, sigma - Declared(thn));
    case IfElse(c, thn, els) =>
      SubstCallees(c, sigma);
      SubstStmtsCallees(thn, sigma - Declared(thn));
      SubstStmtsCallees(els, sigma - Declared(els));
    case Return =>
  }

  lemma {:induction false} NegTreeCallees(e: Expr, sigma: Subst)
    requires Plain(sigma)
    ensures CalleesOf(NegTree(e, sigma)) == CalleesOf(e)
  {
    SubstCallees(e, sigma);
    match e
    case Paren(e') => NegTreeCallees(e', sigma);
    case Not(operand) => SubstCallees(operand, sigma);
    case Bin(op, l, r) =>
      SubstCallees(l, sigma);
      SubstCallees(r, sigma);
      NegTreeCallees(l, sigma);
      NegTreeCallees(r, sigma);
      JoinLeftCallees(Or, NegTree(l, sigma), NegTree(r, sigma));
      JoinLeftCallees(And, WrappedNeg(l, sigma), WrappedNeg(r, sigma));
    case _ =>
  }

  lemma {:induction false} JoinLeftCallees(op: BinOp, l: Expr, r: Expr)
    ensures CalleesOf(JoinLeft(op, l, r)) == CalleesOf(l) + CalleesOf(r)
  {
    if r.Bin? && r.op == op { JoinLeftCallees(op, l, r.l); }
  }

  lemma {:induction false} JoinedCallees(guards: seq<Expr>, sigma: Subst)
    requires guards != [] && Plain(sigma)
    ensures CalleesOf(JoinedTree(guards, sigma)) == CalleesOf(CombinedTree(guards, sigma)) == CalleesOfAll(guards)
  {
    NegTreeCallees(guards[0], sigma);
    if |guards| == 1 {
      assert guards[1..] == [];
    } else {
      JoinedCallees(guards[1..], sigma);
      JoinLeftCallees(And, WrappedNeg(guards[0], sigma), JoinedTree(guards[1..], sigma));
    }
  }

  lemma {:induction false} CalleesAppend(a: seq<Stmt>, b: seq<Stmt>)
    ensures CalleesIn(a + b) == CalleesIn(a) + CalleesIn(b)
  {
    if a == [] {
      assert a + b == b;
    } else {
      assert (a + b)[1..] == a[1..] + b;
      CalleesAppend(a[1..], b);
    }
  }

  lemma {:induction false} GuardsAndTailCallees(body: seq<Stmt>)
    ensures CalleesOfAll(Guards(body)) + CalleesIn(Tail(body)) <= CalleesIn(body)
  {
    if body != [] && AsGuard(body[0]).Some? { GuardsAndTailCallees(body[1..]); }
  }

  lemma {:induction false} PrefixCallees(h: Helper, args: seq<Expr>, i: nat, reserved: set<Name>)
    requires i <= |h.params|
    ensures CalleesIn(PlanParams(h, args, i, reserved).prefix) <= CalleesOfAll(args)
    decreases i
  {
    if i > 0 {
      var before := PlanParams(h, args, i - 1, reserved);
      PrefixCallees(h, args, i - 1, reserved);
      PrefixGrows(h, args, i, before);
      if i <= |args| { StatementCallees(h, args, i, before); }
    }
  }

  lemma StatementCallees(h: Helper, args: seq<Expr>, i: nat, before: Plan)
    requires 0 < i <= |h.params| && i <= |args|
    ensures CalleesIn(before.prefix + StatementFor(h, args, i, before)) <= CalleesIn(before.prefix) + CalleesOfAll(args)
  {
    var more := StatementFor(h, args, i, before);
    CalleesAppend(before.prefix, more);
    ArgCallees(args, i - 1);
    assert CalleesIn(more) <= CalleesOf(args[i - 1]) by { if more != [] { assert more[1..] == []; } }
  }

  lemma {:induction false} ArgCallees(args: seq<Expr>, i: nat)
    requires i < |args|
    ensures CalleesOf(args[i]) <= CalleesOfAll(args)
  {
    if i > 0 { ArgCallees(args[1..], i - 1); }
  }
}
