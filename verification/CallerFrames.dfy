/** The frame that calls are inlined into: what code leaves as it is there, and names added to its blocks. */
module CallerFrames {
  import opened Basics
  import opened JsLang
  import opened Renaming

  // ---- which names are bound never changes while code runs ----

  function Bound(s: Scopes): set<Name> {
    s.env.Keys + match s { case Base(_) => {} case Inner(_, up) => Bound(up) }
  }

  predicate SameShape(s: Scopes, t: Scopes) {
    && s.env.Keys == t.env.Keys
    && match s { case Base(_) => t.Base? case Inner(_, up) => t.Inner? && SameShape(up, t.up) }
  }

  predicate SameLayout(a: State, b: State) {
    SameShape(a.scopes, b.scopes) && a.sh.outer.Keys == b.sh.outer.Keys
  }

  lemma {:induction false} ShapeRefl(s: Scopes)
    ensures SameShape(s, s)
  {
    if s.Inner? { ShapeRefl(s.up); }
  }

  lemma {:induction false} ShapeTrans(s: Scopes, t: Scopes, u: Scopes)
    requires SameShape(s, t) && SameShape(t, u)
    ensures SameShape(s, u)
  {
    if s.Inner? { ShapeTrans(s.up, t.up, u.up); }
  }

  lemma {:induction false} ShapeBound(s: Scopes, t: Scopes)
    requires SameShape(s, t)
    ensures Bound(s) == Bound(t)
  {
    if s.Inner? { ShapeBound(s.up, t.up); }
  }

  lemma {:induction false} BoundIsFound(s: Scopes, x: Name)
    ensures x in Bound(s) <==> Find(s, x).Some?
  {
    if x !in s.env && s.Inner? { BoundIsFound(s.up, x); }
  }

  lemma {:induction false} StoreKeepsShape(s: Scopes, x: Name, v: Value)
    ensures SameShape(s, Store(s, x, v))
  {
    if x in s.env {
      if s.Inner? { ShapeRefl(s.up); }
    } else if s.Inner? {
      StoreKeepsShape(s.up, x, v);
    }
  }

  lemma ApplyKeepsFrame(m: Machine, op: BinOp, v: Value, w: Value, st: State)
    requires op != Or && op != And
    ensures var o := Apply(m, op, v, w, st);
      o.st.scopes == st.scopes && o.st.sh.outer.Keys == st.sh.outer.Keys
  {
  }

  lemma {:induction false} EvalKeepsLayout(m: Machine, e: Expr, st: State, own: bool)
    ensures SameLayout(st, Eval(m, e, st, own).st)
    decreases e, 1
  {
    ShapeRefl(st.scopes);
    match e
    case Lit(_) =>
    case Var(_) =>
    case Paren(e') => EvalKeepsLayout(m, e', st, own);
    case Not(e') => EvalKeepsLayout(m, e', st, own);
    case Assign(x, e') =>
      EvalKeepsLayout(m, e', st, own);
      var o := Eval(m, e', st, own);
      if o.Val? {
        StoreKeepsShape(o.st.scopes, x, o.v);
        ShapeTrans(st.scopes, o.st.scopes, Store(o.st.scopes, x, o.v));
      }
    case Bin(op, l, r) =>
      EvalKeepsLayout(m, l, st, own);
      var ol := Eval(m, l, st, own);
      if ol.Val? {
        EvalKeepsLayout(m, r, ol.st, own);
        var or := Eval(m, r, ol.st, own);
        ShapeTrans(st.scopes, ol.st.scopes, or.st.scopes);
        if or.Val? && op != Or && op != And { ApplyKeepsFrame(m, op, ol.v, or.v, or.st); }
      }
    case Call(_, args) => EvalArgsKeepsLayout(m, args, st, own);
  }

  lemma {:induction false} EvalArgsKeepsLayout(m: Machine, args: seq<Expr>, st: State, own: bool)
    ensures SameLayout(st, EvalArgs(m, args, st, own).st)
    decreases args, 0
  {
    ShapeRefl(st.scopes);
    if args != [] {
      EvalKeepsLayout(m, args[0], st, own);
      var o := Eval(m, args[0], st, own);
      if o.Val? {
        EvalArgsKeepsLayout(m, args[1..], o.st, own);
        ShapeTrans(st.scopes, o.st.scopes, EvalArgs(m, args[1..], o.st, own).st.scopes);
      }
    }
  }

  lemma {:induction false} ExecKeepsLayout(m: Machine, ss: seq<Stmt>, st: State, own: bool)
    ensures SameLayout(st, Exec(m, ss, st, own).st)
    decreases ss, 0
  {
    ShapeRefl(st.scopes);
    if ss != [] {
      ExecOneKeepsLayout(m, ss[0], st, own);
      var o := ExecOne(m, ss[0], st, own);
      if o.Normal? {
        ExecKeepsLayout(m, ss[1..], o.st, own);
        ShapeTrans(st.scopes, o.st.scopes, Exec(m, ss[1..], o.st, own).st.scopes);
      }
    }
  }

  lemma {:induction false} ExecOneKeepsLayout(m: Machine, s: Stmt, st: State, own: bool)
    ensures SameLayout(st, ExecOne(m, s, st, own).st)
    decreases s, 2
  {
    ShapeRefl(st.scopes);
    match s
    case ExprS(e) => EvalKeepsLayout(m, e, st, own);
    case Decl(x, e) =>
      EvalKeepsLayout(m, e, st, own);
      var o := Eval(m, e, st, own);
      if o.Val? {
        StoreKeepsShape(o.st.scopes, x, o.v);
        ShapeTrans(st.scopes, o.st.scopes, Store(o.st.scopes, x, o.v));
      }
    case If(c, thn) =>
      EvalKeepsLayout(m, c, st, own);
      var o := Eval(m, c, st, own);
      if o.Val? && Truthy(o.v) { BranchKeepsLayout(m, thn, st, o.st, own); }
    case IfElse(c, thn, els) =>
      EvalKeepsLayout(m, c, st, own);
      var o := Eval(m, c, st, own);
      if o.Val? { BranchKeepsLayout(m, if Truthy(o.v) then thn else els, st, o.st, own); }
    case Return =>
  }

  lemma {:induction false} BranchKeepsLayout(m: Machine, ss: seq<Stmt>, st: State, entered: State, own: bool)
    requires SameLayout(st, entered)
    ensures SameLayout(st, ExecBlock(m, ss, entered, own).st)
    decreases ss, 2
  {
    BlockKeepsLayout(m, ss, entered, own);
    ShapeTrans(st.scopes, entered.scopes, ExecBlock(m, ss, entered, own).st.scopes);
  }

  lemma {:induction false} BlockKeepsLayout(m: Machine, ss: seq<Stmt>, st: State, own: bool)
    ensures SameLayout(st, ExecBlock(m, ss, st, own).st)
    decreases ss, 1
  {
    ExecKeepsLayout(m, ss, st.(scopes := Push(st.scopes, Declared(ss))), own);
  }

  // ---- blocks with names added ----

  /** One environment of added names for every scope of the frame. */
  predicate Fitting(s: Scopes, pads: seq<Env>) {
    && pads != [] && s.env.Keys !! pads[0].Keys
    && match s { case Base(_) => |pads| == 1 case Inner(_, up) => Fitting(up, pads[1..]) }
  }

  function Pad(s: Scopes, pads: seq<Env>): Scopes
    requires Fitting(s, pads)
  {
    match s
    case Base(env) => Base(env + pads[0])
    case Inner(env, up) => Inner(env + pads[0], Pad(up, pads[1..]))
  }

  /** The names added. */
  function Padding(pads: seq<Env>): set<Name> {
    if pads == [] then {} else pads[0].Keys + Padding(pads[1..])
  }

  function PadState(st: State, pads: seq<Env>): State
    requires Fitting(st.scopes, pads)
  {
    st.(scopes := Pad(st.scopes, pads))
  }

  function PadOutcome<T>(o: Outcome<T>, pads: seq<Env>): Outcome<T>
    requires Fitting(o.st.scopes, pads)
  {
    o.(st := PadState(o.st, pads))
  }

  lemma {:induction false} FittingShape(s: Scopes, t: Scopes, pads: seq<Env>)
    requires SameShape(s, t) && Fitting(s, pads)
    ensures Fitting(t, pads)
  {
    if s.Inner? { FittingShape(s.up, t.up, pads[1..]); }
  }

  lemma {:induction false} FindPad(s: Scopes, pads: seq<Env>, x: Name)
    requires Fitting(s, pads) && x !in Padding(pads)
    ensures Find(Pad(s, pads), x) == Find(s, x)
  {
    if s.Inner? { FindPad(s.up, pads[1..], x); }
  }

  lemma {:induction false} BoundPad(s: Scopes, pads: seq<Env>)
    requires Fitting(s, pads)
    ensures Bound(Pad(s, pads)) == Bound(s) + Padding(pads)
  {
    if s.Inner? { BoundPad(s.up, pads[1..]); }
  }

  lemma {:induction false} StorePad(s: Scopes, pads: seq<Env>, x: Name, v: Value)
    requires Fitting(s, pads) && x !in Padding(pads)
    ensures Fitting(Store(s, x, v), pads) && Store(Pad(s, pads), x, v) == Pad(Store(s, x, v), pads)
  {
    StoreKeepsShape(s, x, v);
    FittingShape(s, Store(s, x, v), pads);
    if x in s.env {
      assert (s.env + pads[0])[x := Init(v)] == s.env[x := Init(v)] + pads[0];
    } else if s.Inner? {
      StorePad(s.up, pads[1..], x, v);
    }
  }

  lemma FindAdded(s: Scopes, pads: seq<Env>, x: Name)
    requires Fitting(s, pads) && x in pads[0]
    ensures Find(Pad(s, pads), x) == Some(pads[0][x])
  {
  }

  /** Storing into a name added to the innermost block. */
  lemma StoreAdded(s: Scopes, pads: seq<Env>, x: Name, v: Value)
    requires Fitting(s, pads) && x in pads[0]
    ensures var after := [pads[0][x := Init(v)]] + pads[1..];
      Fitting(s, after) && Store(Pad(s, pads), x, v) == Pad(s, after)
  {
    var after := [pads[0][x := Init(v)]] + pads[1..];
    assert after[1..] == pads[1..];
    assert (s.env + pads[0])[x := Init(v)] == s.env + after[0];
  }

  /** What was added to the innermost block has changed only in its names `d`. */
  predicate Refilled(before: Env, after: Env, d: set<Name>) {
    after.Keys == before.Keys && after - d == before - d
  }

  lemma RefillFits(s: Scopes, pads: seq<Env>, left: Env)
    requires Fitting(s, pads) && left.Keys == pads[0].Keys
    ensures Fitting(s, [left] + pads[1..]) && Padding([left] + pads[1..]) == Padding(pads)
  {
    assert ([left] + pads[1..])[1..] == pads[1..];
  }

  /** Code that assigns no other names leaves the frame as it was, up to the names `d` added to it. */
  lemma KeptIsPad(s: Scopes, pads: seq<Env>, t: Scopes, d: set<Name>) returns (left: Env)
    requires Fitting(s, pads) && Kept(Pad(s, pads), t, 0, d) && d <= pads[0].Keys
    ensures Refilled(pads[0], left, d) && Fitting(s, [left] + pads[1..]) && t == Pad(s, [left] + pads[1..])
  {
    left := map x | x in pads[0] :: t.env[x];
    RefillFits(s, pads, left);
    assert ([left] + pads[1..])[1..] == pads[1..];
    var whole := s.env + pads[0];
    forall x | x in whole && x !in d ensures t.env[x] == whole[x] {
      assert x in whole - d && (t.env - d)[x] == (whole - d)[x];
    }
    assert t.env == s.env + left;
    assert left - d == pads[0] - d;
  }

  /** Added names that an expression does not mention make no difference to it. */
  lemma {:induction false} EvalPadded(m: Machine, e: Expr, st: State, pads: seq<Env>, own: bool)
    requires Fitting(st.scopes, pads) && Names(e) !! Padding(pads)
    ensures var o := Eval(m, e, st, own);
      Fitting(o.st.scopes, pads) && Eval(m, e, PadState(st, pads), own) == PadOutcome(o, pads)
    decreases e, 1
  {
    match e
    case Lit(_) =>
    case Var(x) => FindPad(st.scopes, pads, x);
    case Paren(e') => EvalPadded(m, e', st, pads, own);
    case Not(e') => EvalPadded(m, e', st, pads, own);
    case Assign(x, e') =>
      EvalPadded(m, e', st, pads, own);
      var o := Eval(m, e', st, own);
      if o.Val? { WritePadded(x, o.v, o.st, pads, own); }
    case Bin(op, l, r) =>
      EvalPadded(m, l, st, pads, own);
      var ol := Eval(m, l, st, own);
      if ol.Val? {
        EvalPadded(m, r, ol.st, pads, own);
        BinPadded(m, op, l, r, st, pads, own);
      }
    case Call(_, args) => EvalArgsPadded(m, args, st, pads, own);
  }

  /** Both operands are evaluated alike. */
  lemma BinPadded(m: Machine, op: BinOp, l: Expr, r: Expr, st: State, pads: seq<Env>, own: bool)
    requires Fitting(st.scopes, pads)
    requires var ol := Eval(m, l, st, own);
      && ol.Val? && Fitting(ol.st.scopes, pads) && Eval(m, l, PadState(st, pads), own) == PadOutcome(ol, pads)
      && var or := Eval(m, r, ol.st, own);
         Fitting(or.st.scopes, pads) && Eval(m, r, PadState(ol.st, pads), own) == PadOutcome(or, pads)
    ensures var o := Eval(m, Bin(op, l, r), st, own);
      Fitting(o.st.scopes, pads) && Eval(m, Bin(op, l, r), PadState(st, pads), own) == PadOutcome(o, pads)
  {
    var ol := Eval(m, l, st, own);
    var or := Eval(m, r, ol.st, own);
    if or.Val? && op != Or && op != And { ApplyPadded(m, op, ol.v, or.v, or.st, pads); }
  }

  lemma WritePadded(x: Name, v: Value, st: State, pads: seq<Env>, own: bool)
    requires Fitting(st.scopes, pads) && x !in Padding(pads)
    ensures var o := Write(st, x, v, own);
      Fitting(o.st.scopes, pads) && Write(PadState(st, pads), x, v, own) == PadOutcome(o, pads)
  {
    FindPad(st.scopes, pads, x);
    StorePad(st.scopes, pads, x, v);
  }

  /** Operators do not look at the frame. */
  lemma ApplyIgnoresScopes(m: Machine, op: BinOp, v: Value, w: Value, st: State, t: Scopes)
    requires op != Or && op != And
    ensures var o := Apply(m, op, v, w, st);
      o.st.scopes == st.scopes && Apply(m, op, v, w, st.(scopes := t)) == o.(st := o.st.(scopes := t))
  {
    if IsRelational(op) {
      assert Resume(st.(scopes := t), m.order(v, w, st.sh)).st.sh == Resume(st, m.order(v, w, st.sh)).st.sh;
    }
  }

  lemma ApplyPadded(m: Machine, op: BinOp, v: Value, w: Value, st: State, pads: seq<Env>)
    requires op != Or && op != And && Fitting(st.scopes, pads)
    ensures var o := Apply(m, op, v, w, st);
      Fitting(o.st.scopes, pads) && Apply(m, op, v, w, PadState(st, pads)) == PadOutcome(o, pads)
  {
    ApplyIgnoresScopes(m, op, v, w, st, Pad(st.scopes, pads));
  }

  lemma {:induction false} EvalArgsPadded(m: Machine, args: seq<Expr>, st: State, pads: seq<Env>, own: bool)
    requires Fitting(st.scopes, pads) && ArgNames(args) !! Padding(pads)
    ensures var o := EvalArgs(m, args, st, own);
      Fitting(o.st.scopes, pads) && EvalArgs(m, args, PadState(st, pads), own) == PadOutcome(o, pads)
    decreases args, 0
  {
    if args != [] {
      EvalPadded(m, args[0], st, pads, own);
      var o := Eval(m, args[0], st, own);
      if o.Val? { EvalArgsPadded(m, args[1..], o.st, pads, own); }
    }
  }

  // ---- code that assigns only some names ----

  /** Assigning `x` from `n` blocks inside `s` hits one of those blocks, a name in `d`, or nothing. */
  predicate Harmless(x: Name, s: Scopes, n: nat, d: set<Name>) {
    if n == 0 then (x in d && x in s.env) || x !in Bound(s)
    else s.Inner? && (x in s.env || Harmless(x, s.up, n - 1, d))
  }

  predicate AllHarmless(xs: set<Name>, s: Scopes, n: nat, d: set<Name>) {
    forall x :: x in xs ==> Harmless(x, s, n, d)
  }

  /** The scopes `n` blocks out are the same but for the names `d` of the innermost of them. */
  predicate Kept(s: Scopes, t: Scopes, n: nat, d: set<Name>) {
    && s.env.Keys == t.env.Keys && (s.Inner? <==> t.Inner?)
    && if n == 0 then s.env - d == t.env - d && (s.Inner? ==> t.up == s.up)
       else s.Inner? && Kept(s.up, t.up, n - 1, d)
  }

  lemma {:induction false} KeptRefl(s: Scopes, n: nat, d: set<Name>, depth: nat)
    requires depth == Depth(s) && n < depth
    ensures Kept(s, s, n, d)
  {
    if n > 0 { KeptRefl(s.up, n - 1, d, depth - 1); }
  }

  function Depth(s: Scopes): (n: nat)
    ensures n > 0 && (s.Inner? ==> n > 1)
  {
    match s { case Base(_) => 1 case Inner(_, up) => 1 + Depth(up) }
  }

  lemma {:induction false} KeptTrans(s: Scopes, t: Scopes, u: Scopes, n: nat, d: set<Name>)
    requires Kept(s, t, n, d) && Kept(t, u, n, d)
    ensures Kept(s, u, n, d)
  {
    if n > 0 { KeptTrans(s.up, t.up, u.up, n - 1, d); }
  }

  lemma {:induction false} HarmlessStays(x: Name, s: Scopes, t: Scopes, n: nat, d: set<Name>)
    requires Kept(s, t, n, d) && Harmless(x, s, n, d)
    ensures Harmless(x, t, n, d)
  {
    if n > 0 { if x !in s.env { HarmlessStays(x, s.up, t.up, n - 1, d); } }
  }

  lemma AllHarmlessStay(xs: set<Name>, s: Scopes, t: Scopes, n: nat, d: set<Name>)
    requires Kept(s, t, n, d) && AllHarmless(xs, s, n, d)
    ensures AllHarmless(xs, t, n, d)
  {
    forall x | x in xs ensures Harmless(x, t, n, d) { HarmlessStays(x, s, t, n, d); }
  }

  lemma {:induction false} StoreIsHarmless(x: Name, v: Value, s: Scopes, n: nat, d: set<Name>)
    requires n < Depth(s) && Harmless(x, s, n, d)
    ensures Kept(s, Store(s, x, v), n, d)
  {
    if n == 0 {
      if x !in Bound(s) { StoreNowhere(s, x, v); }
    } else if x in s.env {
      KeptRefl(s.up, n - 1, d, Depth(s.up));
    } else {
      StoreIsHarmless(x, v, s.up, n - 1, d);
    }
  }

  lemma {:induction false} StoreNowhere(s: Scopes, x: Name, v: Value)
    requires x !in Bound(s)
    ensures Store(s, x, v) == s
  {
    if s.Inner? { StoreNowhere(s.up, x, v); }
  }

  lemma {:induction false} KeptDepth(s: Scopes, t: Scopes, n: nat, d: set<Name>)
    requires Kept(s, t, n, d)
    ensures Depth(s) == Depth(t)
  {
    if n > 0 { KeptDepth(s.up, t.up, n - 1, d); }
  }

  /** Another step that keeps the scopes. */
  lemma NextKept(xs: set<Name>, s: Scopes, t: Scopes, n: nat, d: set<Name>)
    requires Kept(s, t, n, d) && n < Depth(s) && AllHarmless(xs, s, n, d)
    ensures n < Depth(t) && AllHarmless(xs, t, n, d)
  {
    AllHarmlessStay(xs, s, t, n, d);
    KeptDepth(s, t, n, d);
  }

  lemma {:induction false} EvalKeeps(m: Machine, e: Expr, st: State, own: bool, n: nat, d: set<Name>)
    requires n < Depth(st.scopes) && AllHarmless(Writes(e), st.scopes, n, d)
    ensures Kept(st.scopes, Eval(m, e, st, own).st.scopes, n, d)
    decreases e, 1
  {
    KeptRefl(st.scopes, n, d, Depth(st.scopes));
    match e
    case Lit(_) =>
    case Var(_) =>
    case Paren(e') => EvalKeeps(m, e', st, own, n, d);
    case Not(e') => EvalKeeps(m, e', st, own, n, d);
    case Assign(x, e') =>
      EvalKeeps(m, e', st, own, n, d);
      var o := Eval(m, e', st, own);
      if o.Val? { StoreKept(x, o.v, st.scopes, o.st.scopes, n, d); }
    case Bin(op, l, r) =>
      EvalKeeps(m, l, st, own, n, d);
      var ol := Eval(m, l, st, own);
      if ol.Val? {
        NextKept(Writes(r), st.scopes, ol.st.scopes, n, d);
        EvalKeeps(m, r, ol.st, own, n, d);
        var or := Eval(m, r, ol.st, own);
        KeptTrans(st.scopes, ol.st.scopes, or.st.scopes, n, d);
        if or.Val? && op != Or && op != And { ApplyKeepsFrame(m, op, ol.v, or.v, or.st); }
      }
    case Call(_, args) => EvalArgsKeep(m, args, st, own, n, d);
  }

  lemma StoreKept(x: Name, v: Value, s: Scopes, t: Scopes, n: nat, d: set<Name>)
    requires n < Depth(s) && Harmless(x, s, n, d) && Kept(s, t, n, d)
    ensures Kept(s, Store(t, x, v), n, d)
  {
    NextKept({x}, s, t, n, d);
    StoreIsHarmless(x, v, t, n, d);
    KeptTrans(s, t, Store(t, x, v), n, d);
  }

  lemma {:induction false} EvalArgsKeep(m: Machine, args: seq<Expr>, st: State, own: bool, n: nat, d: set<Name>)
    requires n < Depth(st.scopes) && AllHarmless(ArgWrites(args), st.scopes, n, d)
    ensures Kept(st.scopes, EvalArgs(m, args, st, own).st.scopes, n, d)
    decreases args, 0
  {
    KeptRefl(st.scopes, n, d, Depth(st.scopes));
    if args != [] {
      EvalKeeps(m, args[0], st, own, n, d);
      var o := Eval(m, args[0], st, own);
      if o.Val? {
        NextKept(ArgWrites(args[1..]), st.scopes, o.st.scopes, n, d);
        EvalArgsKeep(m, args[1..], o.st, own, n, d);
        KeptTrans(st.scopes, o.st.scopes, EvalArgs(m, args[1..], o.st, own).st.scopes, n, d);
      }
    }
  }

  lemma {:induction false} ExecKeeps(m: Machine, ss: seq<Stmt>, st: State, own: bool, n: nat, d: set<Name>)
    requires n < Depth(st.scopes) && AllHarmless(Alters(ss), st.scopes, n, d)
    ensures Kept(st.scopes, Exec(m, ss, st, own).st.scopes, n, d)
    decreases ss, 0
  {
    KeptRefl(st.scopes, n, d, Depth(st.scopes));
    if ss != [] {
      ExecOneKeeps(m, ss[0], st, own, n, d);
      var o := ExecOne(m, ss[0], st, own);
      if o.Normal? {
        NextKept(Alters(ss[1..]), st.scopes, o.st.scopes, n, d);
        ExecKeeps(m, ss[1..], o.st, own, n, d);
        KeptTrans(st.scopes, o.st.scopes, Exec(m, ss[1..], o.st, own).st.scopes, n, d);
      }
    }
  }

  lemma {:induction false} ExecOneKeeps(m: Machine, s: Stmt, st: State, own: bool, n: nat, d: set<Name>)
    requires n < Depth(st.scopes) && AllHarmless(AltersOne(s), st.scopes, n, d)
    ensures Kept(st.scopes, ExecOne(m, s, st, own).st.scopes, n, d)
    decreases s, 2
  {
    match s
    case ExprS(e) => EvalKeeps(m, e, st, own, n, d);
    case Decl(x, e) =>
      EvalKeeps(m, e, st, own, n, d);
      var o := Eval(m, e, st, own);
      if o.Val? { StoreKept(x, o.v, st.scopes, o.st.scopes, n, d); }
    case If(c, thn) =>
      EvalKeeps(m, c, st, own, n, d);
      var o := Eval(m, c, st, own);
      if o.Val? && Truthy(o.v) { BranchKeeps(m, thn, st.scopes, o.st, own, n, d); }
    case IfElse(c, thn, els) =>
      EvalKeeps(m, c, st, own, n, d);
      var o := Eval(m, c, st, own);
      if o.Val? { BranchKeeps(m, if Truthy(o.v) then thn else els, st.scopes, o.st, own, n, d); }
    case Return => KeptRefl(st.scopes, n, d, Depth(st.scopes));
  }

  lemma {:induction false} BranchKeeps(m: Machine, ss: seq<Stmt>, s: Scopes, entered: State, own: bool, n: nat,
                                       d: set<Name>)
    requires n < Depth(s) && AllHarmless(AlteredByBlock(ss), s, n, d) && Kept(s, entered.scopes, n, d)
    ensures Kept(s, ExecBlock(m, ss, entered, own).st.scopes, n, d)
    decreases ss, 2
  {
    NextKept(AlteredByBlock(ss), s, entered.scopes, n, d);
    BlockKeeps(m, ss, entered, own, n, d);
    KeptTrans(s, entered.scopes, ExecBlock(m, ss, entered, own).st.scopes, n, d);
  }

  lemma {:induction false} BlockKeeps(m: Machine, ss: seq<Stmt>, st: State, own: bool, n: nat, d: set<Name>)
    requires n < Depth(st.scopes) && AllHarmless(AlteredByBlock(ss), st.scopes, n, d)
    ensures Kept(st.scopes, ExecBlock(m, ss, st, own).st.scopes, n, d)
    decreases ss, 1
  {
    var inside := Push(st.scopes, Declared(ss));
    forall x | x in Alters(ss) ensures Harmless(x, inside, n + 1, d) {
      if x !in Declared(ss) { assert x in AlteredByBlock(ss); }
    }
    ExecKeeps(m, ss, st.(scopes := inside), own, n + 1, d);
  }
}
