/** Leading `if (g) return;` guards turned into the text of one positive condition. */
module GuardInversion {
  import opened Basics
  import opened JsLang
  import opened JsText

  // ---- substitution of parameter references ----

  /** What each parameter reference is replaced by. */
  type Subst = map<Name, Expr>

  /** Replacements that can stand wherever an identifier can. */
  predicate Primary(sigma: Subst) {
    forall x :: x in sigma ==> Parsed(sigma[x]) && Level(sigma[x]) == PRIMARY
  }

  function Target(x: Name, sigma: Subst): Name {
    if x in sigma && sigma[x].Var? then sigma[x].x else x
  }

  function SubstExpr(e: Expr, sigma: Subst): Expr
    decreases e, 1
  {
    match e
    case Lit(_) => e
    case Var(x) => if x in sigma then sigma[x] else e
    case Paren(e') => Paren(SubstExpr(e', sigma))
    case Not(e') => Not(SubstExpr(e', sigma))
    case Bin(op, l, r) => Bin(op, SubstExpr(l, sigma), SubstExpr(r, sigma))
    case Assign(x, e') => Assign(Target(x, sigma), SubstExpr(e', sigma))
    case Call(f, args) => Call(f, SubstArgs(args, sigma))
  }

  function SubstArgs(args: seq<Expr>, sigma: Subst): (r: seq<Expr>)
    decreases args, 0
  {
    if args == [] then [] else [SubstExpr(args[0], sigma)] + SubstArgs(args[1..], sigma)
  }

  function SubText(e: Expr, sigma: Subst): Text { Print(SubstExpr(e, sigma)) }

  lemma {:induction false} SubstExprParsed(e: Expr, sigma: Subst)
    requires Parsed(e) && Primary(sigma)
    ensures Parsed(SubstExpr(e, sigma)) && Level(SubstExpr(e, sigma)) == Level(e)
    decreases e, 1
  {
    match e
    case Lit(_) =>
    case Var(_) =>
    case Paren(e') => SubstExprParsed(e', sigma);
    case Not(e') => SubstExprParsed(e', sigma);
    case Bin(op, l, r) => SubstExprParsed(l, sigma); SubstExprParsed(r, sigma);
    case Assign(_, e') => SubstExprParsed(e', sigma);
    case Call(_, args) => SubstArgsParsed(args, sigma);
  }

  lemma {:induction false} SubstArgsParsed(args: seq<Expr>, sigma: Subst)
    requires AllParsed(args) && Primary(sigma)
    ensures AllParsed(SubstArgs(args, sigma))
    decreases args, 0
  {
    if args != [] {
      SubstExprParsed(args[0], sigma);
      SubstArgsParsed(args[1..], sigma);
    }
  }

  // ---- the text the inliner writes ----

  const PREC_OR := 1
  const PREC_AND := 2
  const PREC_ATOM := 3

  datatype NegatedExpr = NegatedExpr(text: Text, prec: nat)

  predicate IsComparator(op: BinOp) {
    op != Or && op != And && !op.Arith?
  }

  function Flip(op: BinOp): BinOp
    requires IsComparator(op)
  {
    match op
    case StrictEq => StrictNe
    case StrictNe => StrictEq
    case LooseEq => LooseNe
    case LooseNe => LooseEq
    case Lt => Ge
    case Gt => Le
    case Le => Gt
    case Ge => Lt
  }

  function LogicalPrec(e: Expr): (p: nat)
    ensures 1 <= p <= 3
  {
    match e
    case Paren(e') => LogicalPrec(e')
    case Bin(op, _, _) => if op == Or then PREC_OR else if op == And then PREC_AND else PREC_ATOM
    case _ => PREC_ATOM
  }

  function Wrap(part: NegatedExpr, minPrec: nat): Text {
    if part.prec < minPrec then [TLPar] + part.text + [TRPar] else part.text
  }

  function Negate(e: Expr, sigma: Subst): NegatedExpr {
    match e
    case Paren(e') => Negate(e', sigma)
    case Not(operand) => NegatedExpr(SubText(operand, sigma), LogicalPrec(operand))
    case Bin(op, l, r) =>
      if IsComparator(op) then
        NegatedExpr(SubText(l, sigma) + [TOp(Flip(op))] + SubText(r, sigma), PREC_ATOM)
      else if op == And then
        NegatedExpr(Negate(l, sigma).text + [TOp(Or)] + Negate(r, sigma).text, PREC_OR)
      else if op == Or then
        NegatedExpr(Wrap(Negate(l, sigma), PREC_AND) + [TOp(And)] + Wrap(Negate(r, sigma), PREC_AND), PREC_AND)
      else NegatedExpr([TBang, TLPar] + SubText(e, sigma) + [TRPar], PREC_ATOM)
    case _ => NegatedExpr([TBang, TLPar] + SubText(e, sigma) + [TRPar], PREC_ATOM)
  }

  function JoinParts(guards: seq<Expr>, sigma: Subst): Text
    requires guards != []
  {
    var first := Wrap(Negate(guards[0], sigma), PREC_AND);
    if |guards| == 1 then first else first + [TOp(And)] + JoinParts(guards[1..], sigma)
  }

  function CombineGuards(guards: seq<Expr>, sigma: Subst): Text
    requires guards != []
  {
    if |guards| == 1 then Negate(guards[0], sigma).text else JoinParts(guards, sigma)
  }

  // ---- the trees those texts parse to ----

  function Wrapped(t: Expr, prec: nat, minPrec: nat): Expr {
    if prec < minPrec then Paren(t) else t
  }

  function NegTree(e: Expr, sigma: Subst): Expr
    decreases e, 0
  {
    match e
    case Paren(e') => NegTree(e', sigma)
    case Not(operand) => SubstExpr(operand, sigma)
    case Bin(op, l, r) =>
      if IsComparator(op) then Bin(Flip(op), SubstExpr(l, sigma), SubstExpr(r, sigma))
      else if op == And then JoinLeft(Or, NegTree(l, sigma), NegTree(r, sigma))
      else if op == Or then JoinLeft(And, WrappedNeg(l, sigma), WrappedNeg(r, sigma))
      else Not(Paren(SubstExpr(e, sigma)))
    case _ => Not(Paren(SubstExpr(e, sigma)))
  }

  function WrappedNeg(e: Expr, sigma: Subst): Expr
    decreases e, 1
  {
    Wrapped(NegTree(e, sigma), Negate(e, sigma).prec, PREC_AND)
  }

  function JoinedTree(guards: seq<Expr>, sigma: Subst): Expr
    requires guards != []
  {
    var first := WrappedNeg(guards[0], sigma);
    if |guards| == 1 then first else JoinLeft(And, first, JoinedTree(guards[1..], sigma))
  }

  function CombinedTree(guards: seq<Expr>, sigma: Subst): Expr
    requires guards != []
  {
    if |guards| == 1 then NegTree(guards[0], sigma) else JoinedTree(guards, sigma)
  }

  lemma {:induction false} LogicalPrecBelowLevel(e: Expr)
    requires Level(e) >= UNARY
    ensures LogicalPrec(e) <= Level(e)
    decreases e
  {
    if e.Paren? && e.e.Paren? { LogicalPrecBelowLevel(e.e); }
  }

  /** The text of a negated `&&` or `||`, from the texts of its negated operands. */
  lemma NegatedPair(op: BinOp, l: Expr, r: Expr, prec: nat)
    requires (op == Or && prec == PREC_OR) || (op == And && prec == PREC_AND)
    requires Parsed(l) && Parsed(r) && Level(l) >= prec && Level(r) >= prec
    ensures Print(JoinLeft(op, l, r)) == Print(l) + [TOp(op)] + Print(r)
    ensures Parsed(JoinLeft(op, l, r)) && Level(JoinLeft(op, l, r)) >= prec
  {
    JoinLeftText(op, l, r);
    JoinLeftParsed(op, l, r);
  }

  /** What `negate` owes for an expression: its text, and the level it reports for it. */
  predicate NegatedWell(e: Expr, sigma: Subst) {
    && Negate(e, sigma).text == Print(NegTree(e, sigma)) && Parsed(NegTree(e, sigma))
    && Level(NegTree(e, sigma)) >= Negate(e, sigma).prec >= 1
  }

  lemma NegatedComparison(op: BinOp, l: Expr, r: Expr, sigma: Subst)
    requires Parsed(Bin(op, l, r)) && Primary(sigma) && IsComparator(op)
    ensures NegatedWell(Bin(op, l, r), sigma)
  {
    SubstExprParsed(l, sigma);
    SubstExprParsed(r, sigma);
    assert Prec(Flip(op)) == Prec(op) >= PREC_ATOM;
  }

  lemma BangAround(ts: Text)
    ensures [TBang, TLPar] + ts + [TRPar] == [TBang] + ([TLPar] + ts + [TRPar])
  {
  }

  /** Everything else is negated as a whole. */
  lemma NegatedWhole(e: Expr, sigma: Subst)
    requires Parsed(e) && Primary(sigma)
    requires !e.Paren? && !e.Not? && (e.Bin? ==> e.op.Arith?)
    ensures NegatedWell(e, sigma)
  {
    SubstExprParsed(e, sigma);
    var whole := SubstExpr(e, sigma);
    BangAround(Print(whole));
    assert NegTree(e, sigma) == Not(Paren(whole));
    assert Negate(e, sigma) == NegatedExpr([TBang, TLPar] + Print(whole) + [TRPar], PREC_ATOM);
  }

  lemma {:induction false} NegateText(e: Expr, sigma: Subst)
    requires Parsed(e) && Primary(sigma)
    ensures NegatedWell(e, sigma)
    decreases e, 1
  {
    match e
    case Paren(e') => NegateText(e', sigma);
    case Not(operand) =>
      SubstExprParsed(operand, sigma);
      LogicalPrecBelowLevel(operand);
    case Bin(op, l, r) =>
      if op == And {
        NegateText(l, sigma);
        NegateText(r, sigma);
        NegatedPair(Or, NegTree(l, sigma), NegTree(r, sigma), PREC_OR);
      } else if op == Or {
        WrapText(l, sigma);
        WrapText(r, sigma);
        NegatedPair(And, WrappedNeg(l, sigma), WrappedNeg(r, sigma), PREC_AND);
      } else if IsComparator(op) {
        NegatedComparison(op, l, r, sigma);
      } else {
        NegatedWhole(e, sigma);
      }
    case _ => NegatedWhole(e, sigma);
  }

  lemma {:induction false} WrapText(e: Expr, sigma: Subst)
    requires Parsed(e) && Primary(sigma)
    ensures Wrap(Negate(e, sigma), PREC_AND) == Print(WrappedNeg(e, sigma))
    ensures Parsed(WrappedNeg(e, sigma)) && Level(WrappedNeg(e, sigma)) >= PREC_AND
    decreases e, 2
  {
    NegateText(e, sigma);
  }

  predicate AllGuardsParsed(guards: seq<Expr>) {
    forall g :: g in guards ==> Parsed(g)
  }

  lemma {:induction false} JoinPartsText(guards: seq<Expr>, sigma: Subst)
    requires guards != [] && AllGuardsParsed(guards) && Primary(sigma)
    ensures JoinParts(guards, sigma) == Print(JoinedTree(guards, sigma))
    ensures Parsed(JoinedTree(guards, sigma)) && Level(JoinedTree(guards, sigma)) >= PREC_AND
  {
    WrapText(guards[0], sigma);
    if |guards| > 1 {
      JoinPartsText(guards[1..], sigma);
      JoinLeftText(And, WrappedNeg(guards[0], sigma), JoinedTree(guards[1..], sigma));
      JoinLeftParsed(And, WrappedNeg(guards[0], sigma), JoinedTree(guards[1..], sigma));
    }
  }

  /** The condition the inliner prints is parsed back as the intended tree. */
  lemma {:induction false} CombinedGuardsParse(guards: seq<Expr>, sigma: Subst)
    requires guards != [] && AllGuardsParsed(guards) && Primary(sigma)
    ensures Parse(CombineGuards(guards, sigma)) == Some(CombinedTree(guards, sigma))
  {
    if |guards| == 1 {
      NegateText(guards[0], sigma);
    } else {
      JoinPartsText(guards, sigma);
    }
    ParseOfPrint(CombinedTree(guards, sigma));
  }

  // ---- what the condition means ----

  /** `n` tests as the opposite of `o`, having done exactly the same things. */
  predicate Opposite(o: Outcome<Value>, n: Outcome<Value>) {
    match o
    case Val(v, st) => n.Val? && n.st == st && Truthy(n.v) != Truthy(v)
    case Threw(_, _) => n == o
  }

  /** No relational comparison that negation flips meets unordered operands (NaN or undefined)
      when `e` is evaluated from `st`. */
  predicate Comparable(m: Machine, e: Expr, sigma: Subst, st: State, own: bool) {
    match e
    case Paren(e') => Comparable(m, e', sigma, st, own)
    case Bin(op, l, r) =>
      var left := Eval(m, SubstExpr(l, sigma), st, own);
      if IsRelational(op) then
        left.Val? ==>
          var right := Eval(m, SubstExpr(r, sigma), left.st, own);
          right.Val? ==>
            m.order(left.v, right.v, right.st.sh) != Gives(Unordered, m.order(left.v, right.v, right.st.sh).sh)
      else if op == And || op == Or then
        && Comparable(m, l, sigma, st, own)
        && (left.Val? && Truthy(left.v) == (op == And) ==> Comparable(m, r, sigma, left.st, own))
      else true
    case _ => true
  }

  lemma ApplyFlipped(m: Machine, op: BinOp, v: Value, w: Value, st: State)
    requires IsComparator(op)
    requires IsRelational(op) ==> m.order(v, w, st.sh) != Gives(Unordered, m.order(v, w, st.sh).sh)
    ensures Opposite(Apply(m, op, v, w, st), Apply(m, Flip(op), v, w, st))
  {
  }

  /** Flipping a relational operator complements it exactly when its operands are ordered. */
  lemma {:induction false} FlipIsComplementIffComparable(m: Machine, op: BinOp, l: Expr, r: Expr, st: State, own: bool)
    requires IsRelational(op)
    ensures Opposite(Eval(m, Bin(op, l, r), st, own), Eval(m, Bin(Flip(op), l, r), st, own))
       <==> Comparable(m, Bin(op, l, r), map[], st, own)
  {
    SubstNothing(l);
    SubstNothing(r);
    var left := Eval(m, l, st, own);
    if left.Val? {
      var right := Eval(m, r, left.st, own);
      if right.Val? { ApplyFlippedIff(m, op, left.v, right.v, right.st); }
    }
  }

  lemma ApplyFlippedIff(m: Machine, op: BinOp, v: Value, w: Value, st: State)
    requires IsRelational(op)
    ensures Opposite(Apply(m, op, v, w, st), Apply(m, Flip(op), v, w, st))
       <==> m.order(v, w, st.sh) != Gives(Unordered, m.order(v, w, st.sh).sh)
  {
  }

  lemma {:induction false} SubstNothing(e: Expr)
    ensures SubstExpr(e, map[]) == e
    decreases e, 1
  {
    match e
    case Lit(_) =>
    case Var(_) =>
    case Paren(e') => SubstNothing(e');
    case Not(e') => SubstNothing(e');
    case Bin(op, l, r) => SubstNothing(l); SubstNothing(r);
    case Assign(_, e') => SubstNothing(e');
    case Call(_, args) => SubstNoArgs(args);
  }

  lemma {:induction false} SubstNoArgs(args: seq<Expr>)
    ensures SubstArgs(args, map[]) == args
    decreases args, 0
  {
    if args != [] {
      SubstNothing(args[0]);
      SubstNoArgs(args[1..]);
    }
  }

  lemma {:induction false} WrappedNegMeaning(m: Machine, e: Expr, sigma: Subst, st: State, own: bool)
    ensures Eval(m, WrappedNeg(e, sigma), st, own) == Eval(m, NegTree(e, sigma), st, own)
  {
  }

  /** The short-circuit cases: both sides evaluate the same operands. */
  lemma {:induction false} DeMorgan(m: Machine, op: BinOp, l: Expr, r: Expr, nl: Expr, nr: Expr, st: State, own: bool)
    requires op == And || op == Or
    requires Opposite(Eval(m, l, st, own), Eval(m, nl, st, own))
    requires var left := Eval(m, l, st, own);
      left.Val? && Truthy(left.v) == (op == And) ==>
        Opposite(Eval(m, r, left.st, own), Eval(m, nr, left.st, own))
    ensures var dual := if op == And then Or else And;
      Opposite(Eval(m, Bin(op, l, r), st, own), Eval(m, Bin(dual, nl, nr), st, own))
  {
  }

  lemma {:induction false} FlippedIsOpposite(m: Machine, op: BinOp, l: Expr, r: Expr, sigma: Subst, st: State,
                                             own: bool)
    requires IsComparator(op) && Comparable(m, Bin(op, l, r), sigma, st, own)
    ensures Opposite(Eval(m, Bin(op, SubstExpr(l, sigma), SubstExpr(r, sigma)), st, own),
                     Eval(m, Bin(Flip(op), SubstExpr(l, sigma), SubstExpr(r, sigma)), st, own))
  {
    var o := Eval(m, SubstExpr(l, sigma), st, own);
    if o.Val? {
      var o' := Eval(m, SubstExpr(r, sigma), o.st, own);
      if o'.Val? { ApplyFlipped(m, op, o.v, o'.v, o'.st); }
    }
  }

  lemma {:induction false} NotIsOpposite(m: Machine, e: Expr, st: State, own: bool)
    ensures Opposite(Eval(m, e, st, own), Eval(m, Not(Paren(e)), st, own))
  {
  }

  lemma {:induction false} NegTreeOfComparison(m: Machine, op: BinOp, l: Expr, r: Expr, sigma: Subst, st: State,
                                               own: bool)
    requires op != And && op != Or && Comparable(m, Bin(op, l, r), sigma, st, own)
    ensures Opposite(Eval(m, SubstExpr(Bin(op, l, r), sigma), st, own), Eval(m, NegTree(Bin(op, l, r), sigma), st, own))
  {
    if IsComparator(op) {
      FlippedIsOpposite(m, op, l, r, sigma, st, own);
    } else {
      NotIsOpposite(m, SubstExpr(Bin(op, l, r), sigma), st, own);
    }
  }

  lemma {:induction false} NegTreeIsOpposite(m: Machine, e: Expr, sigma: Subst, st: State, own: bool)
    requires Comparable(m, e, sigma, st, own)
    ensures Opposite(Eval(m, SubstExpr(e, sigma), st, own), Eval(m, NegTree(e, sigma), st, own))
    decreases e
  {
    match e
    case Paren(e') => NegTreeIsOpposite(m, e', sigma, st, own);
    case Bin(op, l, r) =>
      if op == And || op == Or {
        var left := Eval(m, SubstExpr(l, sigma), st, own);
        NegTreeIsOpposite(m, l, sigma, st, own);
        if left.Val? && Truthy(left.v) == (op == And) {
          NegTreeIsOpposite(m, r, sigma, left.st, own);
        }
        var sl, sr := SubstExpr(l, sigma), SubstExpr(r, sigma);
        if op == And {
          JoinLeftMeaning(m, Or, NegTree(l, sigma), NegTree(r, sigma), st, own);
          DeMorgan(m, op, sl, sr, NegTree(l, sigma), NegTree(r, sigma), st, own);
        } else {
          WrappedNegMeaning(m, l, sigma, st, own);
          if left.Val? { WrappedNegMeaning(m, r, sigma, left.st, own); }
          JoinLeftMeaning(m, And, WrappedNeg(l, sigma), WrappedNeg(r, sigma), st, own);
          DeMorgan(m, op, sl, sr, WrappedNeg(l, sigma), WrappedNeg(r, sigma), st, own);
        }
      } else {
        NegTreeOfComparison(m, op, l, r, sigma, st, own);
      }
    case _ =>
  }

  /** Running the leading guards one after the other: `Stopped` when one of them returned. */
  datatype GuardRun = Passed(st: State) | Stopped(st: State) | Raised(err: Value, st: State)

  function RunGuards(m: Machine, guards: seq<Expr>, sigma: Subst, st: State, own: bool): GuardRun {
    if guards == [] then Passed(st)
    else match Eval(m, SubstExpr(guards[0], sigma), st, own)
      case Threw(err, st') => Raised(err, st')
      case Val(v, st') => if Truthy(v) then Stopped(st') else RunGuards(m, guards[1..], sigma, st', own)
  }

  predicate ComparableRun(m: Machine, guards: seq<Expr>, sigma: Subst, st: State, own: bool) {
    guards == [] ||
    (&& Comparable(m, guards[0], sigma, st, own)
     && var first := Eval(m, SubstExpr(guards[0], sigma), st, own);
        first.Val? && !Truthy(first.v) ==> ComparableRun(m, guards[1..], sigma, first.st, own))
  }

  /** A relational operator decides the expression, alone or under `&&` and `||`. */
  predicate Relates(e: Expr) {
    match e
    case Paren(e') => Relates(e')
    case Bin(op, l, r) => IsRelational(op) || ((op == And || op == Or) && (Relates(l) || Relates(r)))
    case _ => false
  }

  lemma {:induction false} NothingToOrder(m: Machine, e: Expr, sigma: Subst, st: State, own: bool)
    requires !Relates(e)
    ensures Comparable(m, e, sigma, st, own)
  {
    match e
    case Paren(e') => NothingToOrder(m, e', sigma, st, own);
    case Bin(op, l, r) =>
      if op == And || op == Or {
        NothingToOrder(m, l, sigma, st, own);
        NothingToOrder(m, r, sigma, Eval(m, SubstExpr(l, sigma), st, own).st, own);
      }
    case _ =>
  }

  /** Guards that no relational operator decides compare on every machine, whatever they are run on. */
  lemma {:induction false} UnrelatedGuardsCompare(m: Machine, guards: seq<Expr>, sigma: Subst, st: State, own: bool)
    requires forall i :: 0 <= i < |guards| ==> !Relates(guards[i])
    ensures ComparableRun(m, guards, sigma, st, own)
  {
    if guards != [] {
      NothingToOrder(m, guards[0], sigma, st, own);
      UnrelatedGuardsCompare(m, guards[1..], sigma, Eval(m, SubstExpr(guards[0], sigma), st, own).st, own);
    }
  }

  /** The condition is truthy exactly when no guard returned, and leaves the same state behind. */
  predicate TestsLike(run: GuardRun, o: Outcome<Value>) {
    match run
    case Passed(st) => o.Val? && Truthy(o.v) && o.st == st
    case Stopped(st) => o.Val? && !Truthy(o.v) && o.st == st
    case Raised(err, st) => o == Threw(err, st)
  }

  lemma {:induction false} OneGuardMeaning(m: Machine, guard: Expr, sigma: Subst, st: State, own: bool)
    requires Comparable(m, guard, sigma, st, own)
    ensures TestsLike(RunGuards(m, [guard], sigma, st, own), Eval(m, NegTree(guard, sigma), st, own))
  {
    NegTreeIsOpposite(m, guard, sigma, st, own);
    var first := Eval(m, SubstExpr(guard, sigma), st, own);
    assert [guard][1..] == [] && RunGuards(m, [], sigma, first.st, own) == Passed(first.st);
    assert RunGuards(m, [guard], sigma, st, own) ==
      if first.Threw? then Raised(first.err, first.st)
      else if Truthy(first.v) then Stopped(first.st) else Passed(first.st);
  }

  lemma {:induction false} JoinedTreeMeaning(m: Machine, guards: seq<Expr>, sigma: Subst, st: State, own: bool)
    requires guards != [] && ComparableRun(m, guards, sigma, st, own)
    ensures TestsLike(RunGuards(m, guards, sigma, st, own), Eval(m, JoinedTree(guards, sigma), st, own))
  {
    WrappedNegMeaning(m, guards[0], sigma, st, own);
    if |guards| == 1 {
      OneGuardMeaning(m, guards[0], sigma, st, own);
      assert guards == [guards[0]];
    } else {
      var first := Eval(m, SubstExpr(guards[0], sigma), st, own);
      NegTreeIsOpposite(m, guards[0], sigma, st, own);
      JoinLeftMeaning(m, And, WrappedNeg(guards[0], sigma), JoinedTree(guards[1..], sigma), st, own);
      if first.Val? && !Truthy(first.v) {
        JoinedTreeMeaning(m, guards[1..], sigma, first.st, own);
      }
    }
  }

  /** Parsing the printed condition gives an expression that evaluates the guards in order,
      with the same effects, and is truthy exactly when none of them would have returned. */
  lemma {:induction false} CombinedGuardsMeaning(m: Machine, guards: seq<Expr>, sigma: Subst, st: State, own: bool)
    requires guards != [] && AllGuardsParsed(guards) && Primary(sigma)
    requires ComparableRun(m, guards, sigma, st, own)
    ensures Parse(CombineGuards(guards, sigma)).Some?
    ensures TestsLike(RunGuards(m, guards, sigma, st, own),
                      Eval(m, Parse(CombineGuards(guards, sigma)).value, st, own))
  {
    CombinedGuardsParse(guards, sigma);
    if |guards| == 1 {
      OneGuardMeaning(m, guards[0], sigma, st, own);
      assert guards == [guards[0]];
    } else {
      JoinedTreeMeaning(m, guards, sigma, st, own);
    }
  }

  /** With an unordered operand the hypothesis is needed: `if (NaN < 1) return;` does not return,
      yet the printed condition `NaN >= 1` is falsy too, so the tail would be skipped. */
  lemma {:induction false} UnorderedGuardIsNotInverted(m: Machine, st: State, own: bool)
    requires m.order(NaN, Num(1), st.sh) == Gives(Unordered, st.sh)
    ensures var guard := Bin(Lt, Lit(NaN), Lit(Num(1)));
      && RunGuards(m, [guard], map[], st, own).Passed?
      && var cond := Parse(CombineGuards([guard], map[]));
         cond.Some? && Eval(m, cond.value, st, own).Val? && !Truthy(Eval(m, cond.value, st, own).v)
  {
    var guard := Bin(Lt, Lit(NaN), Lit(Num(1)));
    SubstNothing(guard);
    CombinedGuardsParse([guard], map[]);
    assert CombinedTree([guard], map[]) == Bin(Ge, Lit(NaN), Lit(Num(1)));
    assert RunGuards(m, [], map[], Eval(m, guard, st, own).st, own).Passed?;
  }
}
