/** The fragment of JavaScript that the inliner rewrites, with an evaluator that keeps a store,
    a trace of primitive calls, and thrown values. */
module JsLang {
  import opened Basics

  type Name = string

  datatype Value = Undefined | Null | Bool(b: bool) | Num(n: int) | NaN | Str(s: string) | Ref(id: nat)

  predicate Truthy(v: Value) {
    match v
    case Undefined => false
    case Null => false
    case Bool(b) => b
    case Num(n) => n != 0
    case NaN => false
    case Str(s) => s != ""
    case Ref(_) => true
  }

  datatype BinOp = Or | And | StrictEq | StrictNe | LooseEq | LooseNe | Lt | Gt | Le | Ge | Arith(sym: Name)

  datatype Expr =
    | Lit(v: Value)
    | Var(x: Name)
    | Paren(e: Expr)
    | Not(e: Expr)
    | Bin(op: BinOp, l: Expr, r: Expr)
    | Assign(x: Name, e: Expr)
    | Call(f: Name, args: seq<Expr>)

  datatype Stmt =
    | ExprS(e: Expr)
    | Decl(x: Name, e: Expr)
    | If(c: Expr, thn: seq<Stmt>)
    | IfElse(c: Expr, thn: seq<Stmt>, els: seq<Stmt>)
    | Return

  // ---- stores ----

  /** A declared name is `Uninit` until its declaration has run (the temporal dead zone). */
  datatype Slot = Uninit | Init(v: Value)
  type Env = map<Name, Slot>

  /** What a call frame shares with its caller: the caller's visible bindings, the module's
      bindings, and the primitive calls made so far. */
  datatype Shared = Shared(outer: Env, globals: Env, trace: seq<(Name, seq<Value>)>)

  /** The nested block scopes of one frame, innermost first. */
  datatype Scopes = Base(env: Env) | Inner(env: Env, up: Scopes)

  datatype State = State(scopes: Scopes, sh: Shared)

  datatype Outcome<+T> = Val(v: T, st: State) | Threw(err: Value, st: State)

  function Find(s: Scopes, x: Name): Option<Slot> {
    if x in s.env then Some(s.env[x])
    else match s
      case Base(_) => None
      case Inner(_, up) => Find(up, x)
  }

  /** Stores into the innermost scope that binds `x`. */
  function Store(s: Scopes, x: Name, v: Value): Scopes {
    if x in s.env then s.(env := s.env[x := Init(v)])
    else match s
      case Base(_) => s
      case Inner(_, up) => s.(up := Store(up, x, v))
  }

  const REFERENCE_ERROR := Str("ReferenceError")

  /** `own` is true inside a called helper, whose code cannot see its caller's bindings. */
  function Read(st: State, x: Name, own: bool): Outcome<Value> {
    var slot :=
      if Find(st.scopes, x).Some? then Find(st.scopes, x).value
      else if !own && x in st.sh.outer then st.sh.outer[x]
      else if x in st.sh.globals then st.sh.globals[x]
      else Uninit;
    if slot.Init? then Val(slot.v, st) else Threw(REFERENCE_ERROR, st)
  }

  function Write(st: State, x: Name, v: Value, own: bool): Outcome<Value> {
    if Find(st.scopes, x).Some? then
      if Find(st.scopes, x).value.Init? then Val(v, st.(scopes := Store(st.scopes, x, v)))
      else Threw(REFERENCE_ERROR, st)
    else if !own && x in st.sh.outer then
      if st.sh.outer[x].Init? then Val(v, st.(sh := st.sh.(outer := st.sh.outer[x := Init(v)])))
      else Threw(REFERENCE_ERROR, st)
    else if x in st.sh.globals && st.sh.globals[x].Init? then
      Val(v, st.(sh := st.sh.(globals := st.sh.globals[x := Init(v)])))
    else Threw(REFERENCE_ERROR, st)
  }

  // ---- the machine ----

  datatype Ordering = Less | Equal | Greater | Unordered

  datatype Reply<+T> = Gives(v: T, sh: Shared) | Fails(err: Value, sh: Shared)

  /** Everything the fragment leaves open. Operators other than `===` may run conversions,
      so each of them may act on the shared store or throw. Calls of the functions in `silent`,
      those of the file itself, are not traced: only what they do is. */
  datatype Machine = Machine(
    silent: set<Name>,
    strictEq: (Value, Value) -> bool,
    looseEq: (Value, Value, Shared) -> Reply<bool>,
    order: (Value, Value, Shared) -> Reply<Ordering>,
    arith: (Name, Value, Value, Shared) -> Reply<Value>,
    call: (Name, seq<Value>, Shared) -> Reply<Value>)

  /** Code elsewhere may assign the caller's bindings through closures, but cannot add or remove any. */
  function Settle(before: Shared, after: Shared): (sh: Shared)
    ensures sh.outer.Keys == before.outer.Keys
  {
    after.(outer := map x | x in before.outer :: if x in after.outer then after.outer[x] else before.outer[x])
  }

  function Resume<T>(st: State, r: Reply<T>): Outcome<T> {
    match r
    case Gives(v, sh) => Val(v, st.(sh := Settle(st.sh, sh)))
    case Fails(err, sh) => Threw(err, st.(sh := Settle(st.sh, sh)))
  }

  function AsBool(o: Outcome<bool>, negated: bool): Outcome<Value> {
    match o
    case Val(b, st) => Val(Bool(b != negated), st)
    case Threw(err, st) => Threw(err, st)
  }

  predicate IsRelational(op: BinOp) { op in {Lt, Gt, Le, Ge} }

  predicate Holds(op: BinOp, o: Ordering)
    requires IsRelational(op)
  {
    match op
    case Lt => o == Less
    case Gt => o == Greater
    case Le => o == Less || o == Equal
    case Ge => o == Greater || o == Equal
  }

  /** Applies a non-short-circuit operator to evaluated operands. */
  function Apply(m: Machine, op: BinOp, a: Value, b: Value, st: State): Outcome<Value>
    requires op != Or && op != And
  {
    match op
    case StrictEq => Val(Bool(m.strictEq(a, b)), st)
    case StrictNe => Val(Bool(!m.strictEq(a, b)), st)
    case LooseEq => AsBool(Resume(st, m.looseEq(a, b, st.sh)), false)
    case LooseNe => AsBool(Resume(st, m.looseEq(a, b, st.sh)), true)
    case Arith(sym) => Resume(st, m.arith(sym, a, b, st.sh))
    case Lt | Gt | Le | Ge =>
      match Resume(st, m.order(a, b, st.sh))
      case Val(o, st') => Val(Bool(Holds(op, o)), st')
      case Threw(err, st') => Threw(err, st')
  }

  function Eval(m: Machine, e: Expr, st: State, own: bool): Outcome<Value>
    decreases e, 1
  {
    match e
    case Lit(v) => Val(v, st)
    case Var(x) => Read(st, x, own)
    case Paren(e') => Eval(m, e', st, own)
    case Not(e') =>
      (match Eval(m, e', st, own)
       case Val(v, st') => Val(Bool(!Truthy(v)), st')
       case Threw(err, st') => Threw(err, st'))
    case Bin(op, l, r) =>
      (match Eval(m, l, st, own)
       case Threw(err, st') => Threw(err, st')
       case Val(a, st') =>
         if (op == And && !Truthy(a)) || (op == Or && Truthy(a)) then Val(a, st')
         else match Eval(m, r, st', own)
           case Threw(err, st'') => Threw(err, st'')
           case Val(b, st'') => if op == And || op == Or then Val(b, st'') else Apply(m, op, a, b, st''))
    case Assign(x, e') =>
      (match Eval(m, e', st, own)
       case Val(v, st') => Write(st', x, v, own)
       case Threw(err, st') => Threw(err, st'))
    case Call(f, args) =>
      (match EvalArgs(m, args, st, own)
       case Threw(err, st') => Threw(err, st')
       case Val(vs, st') =>
         var logged := if f in m.silent then st' else st'.(sh := st'.sh.(trace := st'.sh.trace + [(f, vs)]));
         Resume(logged, m.call(f, vs, logged.sh)))
  }

  function EvalArgs(m: Machine, args: seq<Expr>, st: State, own: bool): (r: Outcome<seq<Value>>)
    ensures r.Val? ==> |r.v| == |args|
    decreases args, 0
  {
    if args == [] then Val([], st)
    else match Eval(m, args[0], st, own)
      case Threw(err, st') => Threw(err, st')
      case Val(v, st') =>
        match EvalArgs(m, args[1..], st', own)
        case Threw(err, st'') => Threw(err, st'')
        case Val(vs, st'') => Val([v] + vs, st'')
  }

  // ---- statements ----

  datatype Completion = Normal(st: State) | Returned(st: State) | Thrown(err: Value, st: State)

  function Declared(ss: seq<Stmt>): set<Name> {
    set s | s in ss && s.Decl? :: s.x
  }

  function Push(s: Scopes, names: set<Name>): Scopes {
    Inner(map x | x in names :: Uninit, s)
  }

  function Pop(c: Completion): Completion {
    if c.st.scopes.Inner? then
      var st := c.st.(scopes := c.st.scopes.up);
      match c
      case Normal(_) => Normal(st)
      case Returned(_) => Returned(st)
      case Thrown(err, _) => Thrown(err, st)
    else c
  }

  function Exec(m: Machine, ss: seq<Stmt>, st: State, own: bool): Completion
    decreases ss, 0
  {
    if ss == [] then Normal(st)
    else match ExecOne(m, ss[0], st, own)
      case Normal(st') => Exec(m, ss[1..], st', own)
      case other => other
  }

  function ExecOne(m: Machine, s: Stmt, st: State, own: bool): Completion
    decreases s, 2
  {
    match s
    case ExprS(e) =>
      (match Eval(m, e, st, own)
       case Val(_, st') => Normal(st')
       case Threw(err, st') => Thrown(err, st'))
    case Decl(x, e) =>
      (match Eval(m, e, st, own)
       case Val(v, st') => Normal(st'.(scopes := Store(st'.scopes, x, v)))
       case Threw(err, st') => Thrown(err, st'))
    case If(c, thn) =>
      (match Eval(m, c, st, own)
       case Val(v, st') => if Truthy(v) then ExecBlock(m, thn, st', own) else Normal(st')
       case Threw(err, st') => Thrown(err, st'))
    case IfElse(c, thn, els) =>
      (match Eval(m, c, st, own)
       case Val(v, st') => if Truthy(v) then ExecBlock(m, thn, st', own) else ExecBlock(m, els, st', own)
       case Threw(err, st') => Thrown(err, st'))
    case Return => Returned(st)
  }

  function ExecBlock(m: Machine, ss: seq<Stmt>, st: State, own: bool): Completion
    decreases ss, 1
  {
    Pop(Exec(m, ss, st.(scopes := Push(st.scopes, Declared(ss))), own))
  }
}
