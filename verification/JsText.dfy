/** Token text of expressions, and a precedence-climbing parser for it (ECMA-262 section 13). */
module JsText {
  import opened Basics
  import opened JsLang

  datatype Token =
    | TLit(v: Value) | TId(x: Name) | TOp(op: BinOp) | TBang | TAssign | TLPar | TRPar | TComma

  type Text = seq<Token>

  /** Binding strength of a binary operator; all are left associative. */
  function Prec(op: BinOp): (p: nat)
    ensures 1 <= p <= 5
  {
    match op
    case Or => 1
    case And => 2
    case StrictEq | StrictNe | LooseEq | LooseNe => 3
    case Lt | Gt | Le | Ge => 4
    case Arith(_) => 5
  }

  const UNARY := 6
  const PRIMARY := 7

  function Level(e: Expr): nat {
    match e
    case Assign(_, _) => 0
    case Bin(op, _, _) => Prec(op)
    case Not(_) => UNARY
    case _ => PRIMARY
  }

  /** The shape every expression has that came out of a parser: operands bind at least as
      tightly as their operator, and right operands more tightly. */
  predicate Parsed(e: Expr)
    decreases e, 1
  {
    match e
    case Paren(e') => Parsed(e')
    case Not(e') => Parsed(e') && Level(e') >= UNARY
    case Bin(op, l, r) => Parsed(l) && Parsed(r) && Level(l) >= Prec(op) && Level(r) > Prec(op)
    case Assign(_, e') => Parsed(e')
    case Call(_, args) => AllParsed(args)
    case _ => true
  }

  predicate AllParsed(args: seq<Expr>)
    decreases args, 0
  {
    args == [] || (Parsed(args[0]) && AllParsed(args[1..]))
  }

  // ---- printing ----

  function Print(e: Expr): (ts: Text)
    ensures |ts| > 0
    decreases e, 1
  {
    match e
    case Lit(v) => [TLit(v)]
    case Var(x) => [TId(x)]
    case Paren(e') => [TLPar] + Print(e') + [TRPar]
    case Not(e') => [TBang] + Print(e')
    case Bin(op, l, r) => Print(l) + [TOp(op)] + Print(r)
    case Assign(x, e') => [TId(x), TAssign] + Print(e')
    case Call(f, args) => [TId(f), TLPar] + PrintArgs(args) + [TRPar]
  }

  function PrintArgs(args: seq<Expr>): Text
    decreases args, 0
  {
    if args == [] then []
    else if |args| == 1 then Print(args[0])
    else Print(args[0]) + [TComma] + PrintArgs(args[1..])
  }

  // ---- parsing ----

  type Parsing<T> = Option<(T, Text)>

  function ParseExpr(ts: Text): (r: Parsing<Expr>)
    ensures r.Some? ==> |r.value.1| < |ts|
    decreases |ts|, 5
  {
    if |ts| >= 2 && ts[0].TId? && ts[1] == TAssign then
      match ParseExpr(ts[2..])
      case None => None
      case Some(p) => Some((Assign(ts[0].x, p.0), p.1))
    else ParseBin(ts, 1)
  }

  function ParseBin(ts: Text, min: nat): (r: Parsing<Expr>)
    ensures r.Some? ==> |r.value.1| < |ts|
    decreases |ts|, 4
  {
    match ParseUnary(ts)
    case None => None
    case Some(p) => ParseRest(p.0, p.1, min)
  }

  function ParseRest(lhs: Expr, ts: Text, min: nat): (r: Parsing<Expr>)
    ensures r.Some? ==> |r.value.1| <= |ts|
    decreases |ts|, 3
  {
    if |ts| > 0 && ts[0].TOp? && Prec(ts[0].op) >= min then
      match ParseBin(ts[1..], Prec(ts[0].op) + 1)
      case None => None
      case Some(p) => ParseRest(Bin(ts[0].op, lhs, p.0), p.1, min)
    else Some((lhs, ts))
  }

  function ParseUnary(ts: Text): (r: Parsing<Expr>)
    ensures r.Some? ==> |r.value.1| < |ts|
    decreases |ts|, 2
  {
    if ts == [] then None
    else match ts[0]
      case TBang =>
        (match ParseUnary(ts[1..])
         case None => None
         case Some(p) => Some((Not(p.0), p.1)))
      case TLPar =>
        (match ParseExpr(ts[1..])
         case None => None
         case Some(p) => if p.1 != [] && p.1[0] == TRPar then Some((Paren(p.0), p.1[1..])) else None)
      case TLit(v) => Some((Lit(v), ts[1..]))
      case TId(x) =>
        if |ts| >= 2 && ts[1] == TLPar then
          if |ts| >= 3 && ts[2] == TRPar then Some((Call(x, []), ts[3..]))
          else match ParseArgs(ts[2..])
            case None => None
            case Some(p) => Some((Call(x, p.0), p.1))
        else Some((Var(x), ts[1..]))
      case _ => None
  }

  /** One or more comma-separated arguments and the closing parenthesis. */
  function ParseArgs(ts: Text): (r: Parsing<seq<Expr>>)
    ensures r.Some? ==> |r.value.1| < |ts|
    decreases |ts|, 6
  {
    match ParseExpr(ts)
    case None => None
    case Some(p) =>
      if p.1 != [] && p.1[0] == TRPar then Some(([p.0], p.1[1..]))
      else if p.1 != [] && p.1[0] == TComma then
        match ParseArgs(p.1[1..])
        case None => None
        case Some(q) => Some(([p.0] + q.0, q.1))
      else None
  }

  /** The whole text as one expression. */
  function Parse(ts: Text): Option<Expr> {
    match ParseExpr(ts)
    case None => None
    case Some(p) => if p.1 == [] then Some(p.0) else None
  }

  // ---- parsing what was printed ----

  /** `rest` cannot extend an expression of level `level` to the right. */
  predicate Stops(rest: Text, level: nat) {
    rest == [] || (rest[0] != TAssign && rest[0] != TLPar && (rest[0].TOp? ==> Prec(rest[0].op) <= level))
  }

  lemma Assoc(a: Text, b: Text, c: Text)
    ensures (a + b) + c == a + (b + c)
  {
  }

  lemma ParseBang(ts: Text, e: Expr, rest: Text)
    requires ParseUnary(ts) == Some((e, rest))
    ensures ParseUnary([TBang] + ts) == Some((Not(e), rest))
  {
    assert ([TBang] + ts)[1..] == ts;
  }

  lemma ParseParen(ts: Text, e: Expr, rest: Text)
    requires ParseExpr(ts) == Some((e, [TRPar] + rest))
    ensures ParseUnary([TLPar] + ts) == Some((Paren(e), rest))
  {
    assert ([TLPar] + ts)[1..] == ts && ([TRPar] + rest)[1..] == rest;
  }

  lemma ParseCall(f: Name, ts: Text, args: seq<Expr>, rest: Text)
    requires ts != [] && ts[0] != TRPar && ParseArgs(ts) == Some((args, rest))
    ensures ParseUnary([TId(f), TLPar] + ts) == Some((Call(f, args), rest))
  {
    assert ([TId(f), TLPar] + ts)[2..] == ts;
  }

  lemma {:induction false} ParseUnaryOfPrint(e: Expr, rest: Text)
    requires Parsed(e) && Level(e) >= UNARY && Stops(rest, Level(e))
    ensures ParseUnary(Print(e) + rest) == Some((e, rest))
    decreases e, 3
  {
    match e
    case Lit(_) => assert ([TLit(e.v)] + rest)[1..] == rest;
    case Var(_) => assert ([TId(e.x)] + rest)[1..] == rest;
    case Not(e') =>
      Assoc([TBang], Print(e'), rest);
      ParseUnaryOfPrint(e', rest);
      ParseBang(Print(e') + rest, e', rest);
    case Paren(e') =>
      Assoc([TLPar] + Print(e'), [TRPar], rest);
      Assoc([TLPar], Print(e'), [TRPar] + rest);
      ParseExprOfPrint(e', [TRPar] + rest);
      ParseParen(Print(e') + ([TRPar] + rest), e', rest);
    case Call(f, args) =>
      Assoc([TId(f), TLPar] + PrintArgs(args), [TRPar], rest);
      Assoc([TId(f), TLPar], PrintArgs(args), [TRPar] + rest);
      if args == [] {
        assert ([TId(f), TLPar] + ([TRPar] + rest))[3..] == rest;
      } else {
        ArgsDoNotClose(args);
        ParseArgsOfPrint(args, rest);
        ParseCall(f, PrintArgs(args) + ([TRPar] + rest), args, rest);
      }
  }

  lemma {:induction false} PrintDoesNotClose(e: Expr)
    requires Parsed(e)
    ensures Print(e)[0] != TRPar
    decreases e
  {
    if e.Bin? { PrintDoesNotClose(e.l); }
  }

  lemma {:induction false} ArgsDoNotClose(args: seq<Expr>)
    requires args != [] && AllParsed(args)
    ensures PrintArgs(args) != [] && PrintArgs(args)[0] != TRPar
  {
    PrintDoesNotClose(args[0]);
  }

  lemma {:induction false} ParseBinOfPrint(e: Expr, rest: Text, min: nat)
    requires Parsed(e) && Level(e) >= min && Level(e) > 0 && Stops(rest, Level(e))
    ensures ParseBin(Print(e) + rest, min) == ParseRest(e, rest, min)
    decreases e, 4
  {
    if e.Bin? {
      var tail := [TOp(e.op)] + (Print(e.r) + rest);
      BinTail(e, rest);
      ParseBinOfPrint(e.l, tail, min);
      assert tail[1..] == Print(e.r) + rest;
      ParseBinOfPrint(e.r, rest, Prec(e.op) + 1);
    } else {
      ParseUnaryOfPrint(e, rest);
    }
  }

  lemma BinTail(e: Expr, rest: Text)
    requires e.Bin?
    ensures Print(e) + rest == Print(e.l) + ([TOp(e.op)] + (Print(e.r) + rest))
  {
    Assoc(Print(e.l) + [TOp(e.op)], Print(e.r), rest);
    Assoc(Print(e.l), [TOp(e.op)], Print(e.r) + rest);
  }

  lemma {:induction false} PrintIsNotAssignment(e: Expr, rest: Text)
    requires Parsed(e) && Level(e) > 0 && Stops(rest, Level(e))
    ensures var ts := Print(e) + rest; !(|ts| >= 2 && ts[0].TId? && ts[1] == TAssign)
    decreases e
  {
    if e.Bin? {
      BinTail(e, rest);
      PrintIsNotAssignment(e.l, [TOp(e.op)] + (Print(e.r) + rest));
    }
  }

  lemma {:induction false} ParseExprOfPrint(e: Expr, rest: Text)
    requires Parsed(e) && (rest == [] || rest[0] == TRPar || rest[0] == TComma)
    ensures ParseExpr(Print(e) + rest) == Some((e, rest))
    decreases e, 5
  {
    var ts := Print(e) + rest;
    if e.Assign? {
      assert ts[2..] == Print(e.e) + rest;
      ParseExprOfPrint(e.e, rest);
    } else {
      PrintIsNotAssignment(e, rest);
      ParseBinOfPrint(e, rest, 1);
    }
  }

  lemma ParseLastArg(ts: Text, e: Expr, rest: Text)
    requires ParseExpr(ts) == Some((e, [TRPar] + rest))
    ensures ParseArgs(ts) == Some(([e], rest))
  {
    assert ([TRPar] + rest)[1..] == rest;
  }

  lemma ParseNextArg(ts: Text, e: Expr, others: Text, args: seq<Expr>, rest: Text)
    requires ParseExpr(ts) == Some((e, [TComma] + others)) && ParseArgs(others) == Some((args, rest))
    ensures ParseArgs(ts) == Some(([e] + args, rest))
  {
    assert ([TComma] + others)[1..] == others;
  }

  lemma ArgsTail(args: seq<Expr>, rest: Text)
    requires |args| > 1
    ensures PrintArgs(args) + ([TRPar] + rest)
         == Print(args[0]) + ([TComma] + (PrintArgs(args[1..]) + ([TRPar] + rest)))
  {
    Assoc(Print(args[0]) + [TComma], PrintArgs(args[1..]), [TRPar] + rest);
    Assoc(Print(args[0]), [TComma], PrintArgs(args[1..]) + ([TRPar] + rest));
  }

  lemma {:induction false} ParseArgsOfPrint(args: seq<Expr>, rest: Text)
    requires args != [] && AllParsed(args)
    ensures ParseArgs(PrintArgs(args) + ([TRPar] + rest)) == Some((args, rest))
    decreases args, 0
  {
    var ts := PrintArgs(args) + ([TRPar] + rest);
    if |args| == 1 {
      assert args == [args[0]];
      ParseExprOfPrint(args[0], [TRPar] + rest);
      ParseLastArg(ts, args[0], rest);
    } else {
      var others := PrintArgs(args[1..]) + ([TRPar] + rest);
      assert args == [args[0]] + args[1..];
      ArgsTail(args, rest);
      ParseExprOfPrint(args[0], [TComma] + others);
      ParseArgsOfPrint(args[1..], rest);
      ParseNextArg(ts, args[0], others, args[1..], rest);
    }
  }

  /** Printing then parsing gives back the same tree. */
  lemma {:induction false} ParseOfPrint(e: Expr)
    requires Parsed(e)
    ensures Parse(Print(e)) == Some(e)
  {
    assert Print(e) + [] == Print(e);
    ParseExprOfPrint(e, []);
  }

  // ---- re-association ----

  /** The tree the parser builds for `l op r` when `r` is itself an `op` chain. */
  function JoinLeft(op: BinOp, l: Expr, r: Expr): Expr {
    if r.Bin? && r.op == op then Bin(op, JoinLeft(op, l, r.l), r.r) else Bin(op, l, r)
  }

  lemma {:induction false} JoinLeftText(op: BinOp, l: Expr, r: Expr)
    ensures Print(JoinLeft(op, l, r)) == Print(l) + [TOp(op)] + Print(r)
  {
    if r.Bin? && r.op == op {
      JoinLeftText(op, l, r.l);
    }
  }

  lemma {:induction false} JoinLeftParsed(op: BinOp, l: Expr, r: Expr)
    requires Parsed(l) && Parsed(r) && Level(l) >= Prec(op) && Level(r) >= Prec(op)
    requires Prec(op) <= 2
    ensures Parsed(JoinLeft(op, l, r)) && Level(JoinLeft(op, l, r)) == Prec(op)
  {
    if r.Bin? && r.op == op {
      JoinLeftParsed(op, l, r.l);
    }
  }

  /** Short-circuit chains mean the same however they associate. */
  lemma {:induction false} JoinLeftMeaning(m: Machine, op: BinOp, l: Expr, r: Expr, st: State, own: bool)
    requires op == And || op == Or
    ensures Eval(m, JoinLeft(op, l, r), st, own) == Eval(m, Bin(op, l, r), st, own)
  {
    if r.Bin? && r.op == op {
      JoinLeftMeaning(m, op, l, r.l, st, own);
    }
  }
}
