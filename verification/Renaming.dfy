/** Replacing the names of a helper's frame by names of the frame it is inlined into does not
    change what the code does, as long as no replacement is captured. */
module Renaming {
  import opened Basics
  import opened JsLang
  import opened GuardInversion

  // ---- names ----

  function Names(e: Expr): set<Name>
    decreases e, 1
  {
    match e
    case Lit(_) => {}
    case Var(x) => {x}
    case Paren(e') => Names(e')
    case Not(e') => Names(e')
    case Bin(_, l, r) => Names(l) + Names(r)
    case Assign(x, e') => {x} + Names(e')
    case Call(f, args) => {f} + ArgNames(args)
  }

  function ArgNames(args: seq<Expr>): set<Name>
    decreases args, 0
  {
    if args == [] then {} else Names(args[0]) + ArgNames(args[1..])
  }

  /** Names an expression assigns to. */
  function Writes(e: Expr): set<Name>
    decreases e, 1
  {
    match e
    case Lit(_) => {}
    case Var(_) => {}
    case Paren(e') => Writes(e')
    case Not(e') => Writes(e')
    case Bin(_, l, r) => Writes(l) + Writes(r)
    case Assign(x, e') => {x} + Writes(e')
    case Call(_, args) => ArgWrites(args)
  }

  function ArgWrites(args: seq<Expr>): set<Name>
    decreases args, 0
  {
    if args == [] then {} else Writes(args[0]) + ArgWrites(args[1..])
  }

  /** Names that statements resolve through the scope they run in. */
  function Mentions(ss: seq<Stmt>): set<Name>
    decreases ss, 0
  {
    if ss == [] then {} else MentionsOne(ss[0]) + Mentions(ss[1..])
  }

  function MentionsOne(s: Stmt): set<Name>
    decreases s, 2
  {
    match s
    case ExprS(e) => Names(e)
    case Decl(x, e) => {x} + Names(e)
    case If(c, thn) => Names(c) + FreeInBlock(thn)
    case IfElse(c, thn, els) => Names(c) + FreeInBlock(thn) + FreeInBlock(els)
    case Return => {}
  }

  function FreeInBlock(ss: seq<Stmt>): set<Name>
    decreases ss, 1
  {
    Mentions(ss) - Declared(ss)
  }

  /** Names that statements declare or assign in the scope they run in. */
  function Alters(ss: seq<Stmt>): set<Name>
    decreases ss, 0
  {
    if ss == [] then {} else AltersOne(ss[0]) + Alters(ss[1..])
  }

  function AltersOne(s: Stmt): set<Name>
    decreases s, 2
  {
    match s
    case ExprS(e) => Writes(e)
    case Decl(x, e) => {x} + Writes(e)
    case If(c, thn) => Writes(c) + AlteredByBlock(thn)
    case IfElse(c, thn, els) => Writes(c) + AlteredByBlock(thn) + AlteredByBlock(els)
    case Return => {}
  }

  function AlteredByBlock(ss: seq<Stmt>): set<Name>
    decreases ss, 1
  {
    Alters(ss) - Declared(ss)
  }

  /** Names declared in blocks nested inside the statements. */
  function DeclaredInside(ss: seq<Stmt>): set<Name>
    decreases ss, 0
  {
    if ss == [] then {} else DeclaredInOne(ss[0]) + DeclaredInside(ss[1..])
  }

  function DeclaredInOne(s: Stmt): set<Name>
    decreases s, 2
  {
    match s
    case If(_, thn) => DeclaredInBlock(thn)
    case IfElse(_, thn, els) => DeclaredInBlock(thn) + DeclaredInBlock(els)
    case _ => {}
  }

  function DeclaredInBlock(ss: seq<Stmt>): set<Name>
    decreases ss, 1
  {
    Declared(ss) + DeclaredInside(ss)
  }

  // ---- substitution in statements ----

  function SubstStmts(ss: seq<Stmt>, sigma: Subst): (r: seq<Stmt>)
    ensures |r| == |ss|
    decreases ss, 0
  {
    if ss == [] then [] else [SubstStmt(ss[0], sigma)] + SubstStmts(ss[1..], sigma)
  }

  function SubstStmt(s: Stmt, sigma: Subst): Stmt
    decreases s, 2
  {
    match s
    case ExprS(e) => ExprS(SubstExpr(e, sigma))
    case Decl(x, e) => Decl(Target(x, sigma), SubstExpr(e, sigma))
    case If(c, thn) => If(SubstExpr(c, sigma), SubstBlock(thn, sigma))
    case IfElse(c, thn, els) => IfElse(SubstExpr(c, sigma), SubstBlock(thn, sigma), SubstBlock(els, sigma))
    case Return => Return
  }

  /** References inside a block that redeclares a name are not references to the outer one. */
  function SubstBlock(ss: seq<Stmt>, sigma: Subst): (r: seq<Stmt>)
    decreases ss, 1
  {
    SubstStmts(ss, sigma - Declared(ss))
  }

  lemma {:induction false} SubstKeepsDeclared(ss: seq<Stmt>, sigma: Subst)
    requires sigma.Keys !! Declared(ss)
    ensures Declared(SubstStmts(ss, sigma)) == Declared(ss)
  {
    if ss != [] {
      var rest := ss[1..];
      assert ss == [ss[0]] + rest;
      assert Declared(ss) == Declared([ss[0]]) + Declared(rest) by { DeclaredCons(ss[0], rest); }
      SubstKeepsDeclared(rest, sigma);
      DeclaredCons(SubstStmt(ss[0], sigma), SubstStmts(rest, sigma));
    }
  }

  lemma DeclaredCons(s: Stmt, rest: seq<Stmt>)
    ensures Declared([s] + rest) == (if s.Decl? then {s.x} else {}) + Declared(rest)
  {
    var all := [s] + rest;
    forall x | x in (if s.Decl? then {s.x} else {}) + Declared(rest) ensures x in Declared(all) {
      if s.Decl? && x == s.x { assert all[0] == s; assert s in all; }
      else { var t :| t in rest && t.Decl? && t.x == x; assert t in all; }
    }
  }

  // ---- related frames ----

  /** What a replacement stands for in the scopes it is evaluated in. */
  predicate Denotes(e: Expr, s: Scopes, slot: Slot) {
    match e
    case Var(t) => Find(s, t) == Some(slot)
    case Lit(v) => slot == Init(v)
    case _ => false
  }

  /** `x` in scopes `h` is what its replacement is in scopes `i`. A name bound in neither means the same
      if both sides see the bindings in `outer`, if neither does, or if it is not bound there. */
  predicate RelatedName(x: Name, sigma: Subst, h: Scopes, i: Scopes, outer: set<Name>, blind: bool) {
    if x in sigma then Find(h, x).Some? && Denotes(sigma[x], i, Find(h, x).value)
    else Find(h, x) == Find(i, x) && (blind && Find(h, x).None? ==> x !in outer)
  }

  /** The two frames agree on the names `names`; their innermost scopes, which bind the name
      sets `layers`, are the same. */
  predicate Related(layers: seq<set<Name>>, names: set<Name>, sigma: Subst, h: Scopes, i: Scopes, outer: set<Name>,
                    blind: bool) {
    if layers == [] then forall x :: x in names ==> RelatedName(x, sigma, h, i, outer, blind)
    else
      && h.Inner? && i.Inner? && h.env == i.env && h.env.Keys == layers[0]
      && Related(layers[1..], names, sigma, h.up, i.up, outer, blind)
  }

  function Shade(layers: seq<set<Name>>): set<Name> {
    if layers == [] then {} else layers[0] + Shade(layers[1..])
  }

  /** Replacements are names and constants. */
  predicate Plain(sigma: Subst) { forall x :: x in sigma ==> sigma[x].Var? || sigma[x].Lit? }

  /** No two names get one replacement, and none gets a name of `names` that stands for itself. */
  predicate Uncaptured(sigma: Subst, names: set<Name>) {
    && Plain(sigma)
    && (forall x :: x in sigma && sigma[x].Var? ==> sigma[x].x !in names - sigma.Keys)
    && (forall x, y :: x in sigma && y in sigma && sigma[x].Var? && sigma[x] == sigma[y] ==> x == y)
  }

  // ---- replacements that an inner declaration captures ----

  /** No reference in a block nested inside `ss` is replaced by a name that this block declares. */
  predicate Clear(ss: seq<Stmt>, sigma: Subst)
    decreases ss, 0
  {
    ss == [] || (ClearOne(ss[0], sigma) && Clear(ss[1..], sigma))
  }

  predicate ClearOne(s: Stmt, sigma: Subst)
    decreases s, 2
  {
    match s
    case If(_, thn) => ClearBlock(thn, sigma)
    case IfElse(_, thn, els) => ClearBlock(thn, sigma) && ClearBlock(els, sigma)
    case _ => true
  }

  predicate ClearBlock(ss: seq<Stmt>, sigma: Subst)
    decreases ss, 1
  {
    && (forall x :: x in FreeInBlock(ss) && x in sigma && sigma[x].Var? ==> sigma[x].x !in Declared(ss))
    && Clear(ss, sigma - Declared(ss))
  }

  /** What stays fixed while related code runs: the scopes entered so far, the names the code
      resolves below them, the replacements, and which of the two sides sees the names in `outer`. */
  datatype Context = Context(layers: seq<set<Name>>, names: set<Name>, sigma: Subst, outer: set<Name>, own: bool,
                             site: bool)
  {
    /** The replacements that inner declarations do not hide. */
    function Live(): Subst { sigma - Shade(layers) }

    /** The code may refer to `x`: no scope entered so far captures its replacement. */
    predicate Sees(x: Name) {
      && x in names + Shade(layers)
      && (x in Live() && Live()[x].Var? ==> Live()[x].x !in Shade(layers))
    }

    predicate SeesAll(xs: set<Name>) { forall x :: x in xs ==> Sees(x) }

    predicate Fits(h: Scopes, i: Scopes) {
      Uncaptured(sigma, names) && Related(layers, names, sigma, h, i, outer, own != site)
    }

    function Outward(): Context
      requires layers != []
    {
      this.(layers := layers[1..])
    }
  }

  lemma {:induction false} Resolve(x: Name, c: Context, h: Scopes, i: Scopes)
    requires c.Fits(h, i) && c.Sees(x)
    ensures RelatedName(x, c.Live(), h, i, c.outer, c.own != c.site)
    decreases |c.layers|
  {
    if c.layers != [] && x !in h.env {
      Resolve(x, c.Outward(), h.up, i.up);
    }
  }

  lemma {:induction false} FindAfterStore(s: Scopes, x: Name, v: Value, y: Name)
    ensures Find(Store(s, x, v), y) == if y == x && Find(s, x).Some? then Some(Init(v)) else Find(s, y)
    decreases s
  {
    if x !in s.env && s.Inner? { FindAfterStore(s.up, x, v, y); }
  }

  /** Everything altered in place is replaced by a name, not by a constant. */
  predicate Alterable(altered: set<Name>, sigma: Subst) {
    forall x :: x in altered && x in sigma ==> sigma[x].Var?
  }

  /** Storing into one name leaves every other name related. */
  lemma RelatedAfterStore(x: Name, v: Value, y: Name, c: Context, h: Scopes, i: Scopes)
    requires c.layers == [] && c.Fits(h, i) && x in c.names && y in c.names && Alterable({x}, c.sigma)
    ensures RelatedName(y, c.sigma, Store(h, x, v), Store(i, Target(x, c.sigma), v), c.outer, c.own != c.site)
  {
    var t := Target(x, c.sigma);
    FindAfterStore(h, x, v, y);
    FindAfterStore(i, t, v, if y in c.sigma && c.sigma[y].Var? then c.sigma[y].x else y);
    assert RelatedName(y, c.sigma, h, i, c.outer, c.own != c.site);
    assert RelatedName(x, c.sigma, h, i, c.outer, c.own != c.site);
  }

  /** Under an inner scope that does not bind `x`, the code sees it as from outside. */
  lemma SeesOutward(x: Name, c: Context)
    requires c.layers != [] && c.Sees(x) && x !in c.layers[0]
    ensures c.Outward().Sees(x)
    ensures x in c.Live() <==> x in c.Outward().Live()
    ensures x in c.Live() ==> c.Live()[x] == c.Outward().Live()[x]
  {
  }

  lemma {:induction false} FitsAfterStore(x: Name, v: Value, c: Context, h: Scopes, i: Scopes)
    requires c.Fits(h, i) && c.Sees(x) && Alterable({x}, c.Live())
    ensures c.Fits(Store(h, x, v), Store(i, Target(x, c.Live()), v))
    decreases |c.layers|
  {
    if c.layers == [] {
      assert c.Live() == c.sigma;
      forall y | y in c.names
        ensures RelatedName(y, c.sigma, Store(h, x, v), Store(i, Target(x, c.sigma), v), c.outer, c.own != c.site)
      {
        RelatedAfterStore(x, v, y, c, h, i);
      }
    } else if x !in h.env {
      SeesOutward(x, c);
      FitsAfterStore(x, v, c.Outward(), h.up, i.up);
    }
  }

  // ---- related runs ----

  /** `a` is a state of the original code and `b` the matching state of the renamed code. */
  predicate Alike(c: Context, a: State, b: State) {
    a.sh == b.sh && a.sh.outer.Keys == c.outer && c.Fits(a.scopes, b.scopes)
  }

  predicate SameOutcome<T(==)>(c: Context, a: Outcome<T>, b: Outcome<T>) {
    match a
    case Val(v, st) => b.Val? && b.v == v && Alike(c, st, b.st)
    case Threw(err, st) => b.Threw? && b.err == err && b.st.sh == st.sh
  }

  predicate SameCompletion(c: Context, a: Completion, b: Completion) {
    match a
    case Normal(st) => b.Normal? && Alike(c, st, b.st)
    case Returned(st) => b.Returned? && Alike(c, st, b.st)
    case Thrown(err, st) => b.Thrown? && b.err == err && b.st.sh == st.sh
  }

  lemma ReadAlike(m: Machine, x: Name, c: Context, a: State, b: State)
    requires Alike(c, a, b) && c.Sees(x)
    ensures SameOutcome(c, Read(a, x, c.own), Eval(m, SubstExpr(Var(x), c.Live()), b, c.site))
  {
    Resolve(x, c, a.scopes, b.scopes);
  }

  lemma WriteAlike(x: Name, v: Value, c: Context, a: State, b: State)
    requires Alike(c, a, b) && c.Sees(x) && Alterable({x}, c.Live())
    ensures SameOutcome(c, Write(a, x, v, c.own), Write(b, Target(x, c.Live()), v, c.site))
  {
    Resolve(x, c, a.scopes, b.scopes);
    FitsAfterStore(x, v, c, a.scopes, b.scopes);
  }

  lemma ApplyAlike(m: Machine, op: BinOp, v: Value, w: Value, c: Context, a: State, b: State)
    requires op != Or && op != And && Alike(c, a, b)
    ensures SameOutcome(c, Apply(m, op, v, w, a), Apply(m, op, v, w, b))
  {
  }

  lemma {:induction false} EvalAlike(m: Machine, e: Expr, c: Context, a: State, b: State)
    requires Alike(c, a, b)
    requires c.SeesAll(Names(e)) && Alterable(Writes(e), c.Live())
    ensures SameOutcome(c, Eval(m, e, a, c.own), Eval(m, SubstExpr(e, c.Live()), b, c.site))
    decreases e, 1
  {
    var s := c.Live();
    match e
    case Lit(_) =>
    case Var(x) => ReadAlike(m, x, c, a, b);
    case Paren(e') => EvalAlike(m, e', c, a, b);
    case Not(e') => EvalAlike(m, e', c, a, b);
    case Assign(x, e') =>
      EvalAlike(m, e', c, a, b);
      var o := Eval(m, e', a, c.own);
      if o.Val? { WriteAlike(x, o.v, c, o.st, Eval(m, SubstExpr(e', s), b, c.site).st); }
    case Bin(op, l, r) =>
      EvalAlike(m, l, c, a, b);
      var ol, ol' := Eval(m, l, a, c.own), Eval(m, SubstExpr(l, s), b, c.site);
      if ol.Val? {
        EvalAlike(m, r, c, ol.st, ol'.st);
        var or, or' := Eval(m, r, ol.st, c.own), Eval(m, SubstExpr(r, s), ol'.st, c.site);
        if or.Val? && op != Or && op != And { ApplyAlike(m, op, ol.v, or.v, c, or.st, or'.st); }
      }
    case Call(f, args) => EvalArgsAlike(m, args, c, a, b);
  }

  lemma {:induction false} EvalArgsAlike(m: Machine, args: seq<Expr>, c: Context, a: State, b: State)
    requires Alike(c, a, b)
    requires c.SeesAll(ArgNames(args)) && Alterable(ArgWrites(args), c.Live())
    ensures SameOutcome(c, EvalArgs(m, args, a, c.own), EvalArgs(m, SubstArgs(args, c.Live()), b, c.site))
    decreases args, 0
  {
    if args != [] {
      var args' := SubstArgs(args, c.Live());
      assert args'[0] == SubstExpr(args[0], c.Live()) && args'[1..] == SubstArgs(args[1..], c.Live());
      EvalAlike(m, args[0], c, a, b);
      var o := Eval(m, args[0], a, c.own);
      if o.Val? { EvalArgsAlike(m, args[1..], c, o.st, Eval(m, args'[0], b, c.site).st); }
    }
  }

  lemma {:induction false} ExecAlike(m: Machine, ss: seq<Stmt>, c: Context, a: State, b: State)
    requires Alike(c, a, b)
    requires c.SeesAll(Mentions(ss)) && Clear(ss, c.Live()) && Alterable(Alters(ss), c.Live())
    ensures SameCompletion(c, Exec(m, ss, a, c.own), Exec(m, SubstStmts(ss, c.Live()), b, c.site))
    decreases ss, 0
  {
    if ss != [] {
      var ss' := SubstStmts(ss, c.Live());
      assert ss'[0] == SubstStmt(ss[0], c.Live()) && ss'[1..] == SubstStmts(ss[1..], c.Live());
      ExecOneAlike(m, ss[0], c, a, b);
      var o := ExecOne(m, ss[0], a, c.own);
      if o.Normal? { ExecAlike(m, ss[1..], c, o.st, ExecOne(m, ss'[0], b, c.site).st); }
    }
  }

  lemma {:induction false} ExecOneAlike(m: Machine, t: Stmt, c: Context, a: State, b: State)
    requires Alike(c, a, b)
    requires c.SeesAll(MentionsOne(t)) && ClearOne(t, c.Live()) && Alterable(AltersOne(t), c.Live())
    ensures SameCompletion(c, ExecOne(m, t, a, c.own), ExecOne(m, SubstStmt(t, c.Live()), b, c.site))
    decreases t, 2
  {
    var s := c.Live();
    match t
    case ExprS(e) => EvalAlike(m, e, c, a, b);
    case Decl(x, e) =>
      EvalAlike(m, e, c, a, b);
      var o := Eval(m, e, a, c.own);
      if o.Val? { FitsAfterStore(x, o.v, c, o.st.scopes, Eval(m, SubstExpr(e, s), b, c.site).st.scopes); }
    case If(e, thn) =>
      EvalAlike(m, e, c, a, b);
      var o := Eval(m, e, a, c.own);
      if o.Val? && Truthy(o.v) { ExecBlockAlike(m, thn, c, o.st, Eval(m, SubstExpr(e, s), b, c.site).st); }
    case IfElse(e, thn, els) =>
      EvalAlike(m, e, c, a, b);
      var o := Eval(m, e, a, c.own);
      if o.Val? {
        ExecBlockAlike(m, if Truthy(o.v) then thn else els, c, o.st, Eval(m, SubstExpr(e, s), b, c.site).st);
      }
    case Return =>
  }

  /** What code sees inside a block that it enters. */
  lemma SeesInside(ss: seq<Stmt>, c: Context, inner: Context)
    requires c.SeesAll(FreeInBlock(ss)) && ClearBlock(ss, c.Live()) && inner == c.(layers := [Declared(ss)] + c.layers)
    ensures inner.Live() == c.Live() - Declared(ss) && inner.SeesAll(Mentions(ss))
  {
    assert inner.layers[1..] == c.layers;
    assert Shade(inner.layers) == Declared(ss) + Shade(c.layers);
    forall x | x in Mentions(ss) ensures inner.Sees(x) {
      if x !in Declared(ss) { assert c.Sees(x); }
    }
  }

  /** Related code run from related states does the same and ends in related states. */
  lemma {:induction false} ExecBlockAlike(m: Machine, ss: seq<Stmt>, c: Context, a: State, b: State)
    requires Alike(c, a, b)
    requires c.SeesAll(FreeInBlock(ss)) && ClearBlock(ss, c.Live()) && Alterable(AlteredByBlock(ss), c.Live())
    ensures SameCompletion(c, ExecBlock(m, ss, a, c.own), ExecBlock(m, SubstBlock(ss, c.Live()), b, c.site))
    decreases ss, 1
  {
    var d := Declared(ss);
    var inner := c.(layers := [d] + c.layers);
    SubstKeepsDeclared(ss, c.Live() - d);
    SeesInside(ss, c, inner);
    var a', b' := a.(scopes := Push(a.scopes, d)), b.(scopes := Push(b.scopes, d));
    assert inner.layers[1..] == c.layers;
    assert Alike(inner, a', b');
    ExecAlike(m, ss, inner, a', b');
  }
}
