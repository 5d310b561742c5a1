/** A function with the calls of another replaced, and when it is still a program. */
module Rewriting {
  import opened Basics
  import opened JsLang
  import opened JsText
  import opened GuardInversion
  import opened Renaming
  import opened InlinePlan
  import opened InlineCorrect
  import opened EarlyErrors
  import opened Callees
  import opened InlineTheorem

  /** Every identifier in the statements, in nested blocks too. */
  function Words(ss: seq<Stmt>): set<Name>
    decreases ss, 0
  {
    if ss == [] then {} else WordsOne(ss[0]) + Words(ss[1..])
  }

  function WordsOne(s: Stmt): set<Name>
    decreases s, 2
  {
    match s
    case ExprS(e) => Names(e)
    case Decl(x, e) => {x} + Names(e)
    case If(c, thn) => Names(c) + Words(thn)
    case IfElse(c, thn, els) => Names(c) + Words(thn) + Words(els)
    case Return => {}
  }

  /** The statement `g(...);` */
  predicate CallsIt(s: Stmt, g: Name) { s.ExprS? && s.e.Call? && s.e.f == g }

  /** What replaces the call. The condition of a legal helper always prints to text that parses. */
  function BlockOf(h: Helper, args: seq<Expr>, reserved: set<Name>): seq<Stmt> {
    var r := ReplacementOf(h, FullPlan(h, args, reserved));
    if Printable(r) then Inlined(r) else []
  }

  /** The statements of a block with every call of `g` replaced, each replacement reserving its names. */
  function Rewritten(ss: seq<Stmt>, g: Name, h: Helper, reserved: set<Name>): seq<Stmt>
    decreases ss, 0
  {
    if ss == [] then []
    else if CallsIt(ss[0], g) then
      BlockOf(h, ss[0].e.args, reserved) + Rewritten(ss[1..], g, h, FullPlan(h, ss[0].e.args, reserved).reserved)
    else [RewrittenOne(ss[0], g, h)] + Rewritten(ss[1..], g, h, reserved)
  }

  function RewrittenOne(s: Stmt, g: Name, h: Helper): Stmt
    decreases s, 2
  {
    match s
    case If(c, thn) => If(c, RewrittenBlock(thn, g, h))
    case IfElse(c, thn, els) => IfElse(c, RewrittenBlock(thn, g, h), RewrittenBlock(els, g, h))
    case _ => s
  }

  /** A block reserves the identifiers it holds. */
  function RewrittenBlock(ss: seq<Stmt>, g: Name, h: Helper): seq<Stmt>
    decreases ss, 1
  {
    Rewritten(ss, g, h, Words(ss))
  }

  /** The names the replacements add to the block. */
  function Additions(ss: seq<Stmt>, g: Name, h: Helper, reserved: set<Name>): set<Name> {
    if ss == [] then {}
    else if CallsIt(ss[0], g) then
      Declared(BlockOf(h, ss[0].e.args, reserved))
      + Additions(ss[1..], g, h, FullPlan(h, ss[0].e.args, reserved).reserved)
    else Additions(ss[1..], g, h, reserved)
  }

  lemma {:induction false} DeclaredAreWords(ss: seq<Stmt>)
    ensures Declared(ss) <= Words(ss)
  {
    if ss != [] {
      DeclaredAreWords(ss[1..]);
      assert [ss[0]] + ss[1..] == ss;
      DeclaredCons(ss[0], ss[1..]);
    }
  }

  lemma {:induction false} AdditionsAreNew(ss: seq<Stmt>, g: Name, h: Helper, reserved: set<Name>)
    requires LegalHelper(h)
    ensures Additions(ss, g, h, reserved) !! reserved
    ensures Declared(Rewritten(ss, g, h, reserved)) == Declared(ss) + Additions(ss, g, h, reserved)
  {
    if ss != [] {
      DeclaredCons(ss[0], ss[1..]);
      assert [ss[0]] + ss[1..] == ss;
      if CallsIt(ss[0], g) {
        var args := ss[0].e.args;
        var plan := FullPlan(h, args, reserved);
        InlinedDeclares(h, args, reserved);
        AdditionsAreNew(ss[1..], g, h, plan.reserved);
        DeclaredAppend(BlockOf(h, args, reserved), Rewritten(ss[1..], g, h, plan.reserved));
      } else {
        AdditionsAreNew(ss[1..], g, h, reserved);
        DeclaredCons(RewrittenOne(ss[0], g, h), Rewritten(ss[1..], g, h, reserved));
      }
    }
  }

  // ---- early errors ----

  /** A block that declares no name twice still declares none twice, and neither do the blocks inside. */
  lemma {:induction false} RewrittenIsLegal(ss: seq<Stmt>, g: Name, h: Helper, reserved: set<Name>)
    requires LegalHelper(h) && LegalBlock(ss) && Declared(ss) <= reserved
    ensures LegalBlock(Rewritten(ss, g, h, reserved))
    decreases ss, 1
  {
    if ss != [] {
      var rest := ss[1..];
      assert [ss[0]] + rest == ss;
      DistinctTail(ss[0], rest);
      DeclaredCons(ss[0], rest);
      if CallsIt(ss[0], g) {
        CallIsLegal(ss, g, h, reserved);
      } else {
        RewrittenIsLegal(rest, g, h, reserved);
        AdditionsAreNew(rest, g, h, reserved);
        RewrittenOneIsLegal(ss[0], g, h);
        LegalCons(RewrittenOne(ss[0], g, h), Rewritten(rest, g, h, reserved));
      }
    }
  }

  lemma LegalCons(s: Stmt, rest: seq<Stmt>)
    requires LegalInOne(s) && LegalBlock(rest) && (s.Decl? ==> s.x !in Declared(rest))
    ensures LegalBlock([s] + rest)
  {
    assert [s][1..] == [];
    LegalAppend([s], rest);
  }

  /** A call comes first: the rest adds no name of its block. */
  lemma {:induction false} CallIsLegal(ss: seq<Stmt>, g: Name, h: Helper, reserved: set<Name>)
    requires LegalHelper(h) && ss != [] && CallsIt(ss[0], g)
    requires LegalBlock(ss[1..]) && Declared(ss[1..]) <= reserved
    ensures LegalBlock(Rewritten(ss, g, h, reserved))
    decreases ss, 0
  {
    var args := ss[0].e.args;
    var next := FullPlan(h, args, reserved).reserved;
    InlinedDeclares(h, args, reserved);
    InlinedIsLegal(h, args, reserved, {});
    RewrittenIsLegal(ss[1..], g, h, next);
    AdditionsAreNew(ss[1..], g, h, next);
    LegalAppend(BlockOf(h, args, reserved), Rewritten(ss[1..], g, h, next));
  }

  lemma {:induction false} RewrittenOneIsLegal(s: Stmt, g: Name, h: Helper)
    requires LegalHelper(h) && LegalInOne(s)
    ensures LegalInOne(RewrittenOne(s, g, h))
    decreases s, 2
  {
    match s
    case If(_, thn) =>
      DeclaredAreWords(thn);
      RewrittenIsLegal(thn, g, h, Words(thn));
    case IfElse(_, thn, els) =>
      DeclaredAreWords(thn);
      DeclaredAreWords(els);
      RewrittenIsLegal(thn, g, h, Words(thn));
      RewrittenIsLegal(els, g, h, Words(els));
    case _ =>
  }

  // ---- guards ----

  /** The guards have the shape that the parser gives. */
  predicate Readable(h: Helper) { AllParsed(Guards(h.body)) }

  lemma {:induction false} ParamsPlain(h: Helper, args: seq<Expr>, i: nat, reserved: set<Name>)
    requires i <= |h.params|
    ensures Replaceable(PlanParams(h, args, i, reserved).sigma)
    decreases i
  {
    if i > 0 { ParamsPlain(h, args, i - 1, reserved); }
  }

  predicate Replaceable(sigma: Subst) { Plain(sigma) && Primary(sigma) }

  lemma {:induction false} LocalsPlain(tail: seq<Stmt>, i: nat, plan: Plan)
    requires i <= |tail| && Replaceable(plan.sigma)
    ensures PlanLocals(tail, i, plan).prefix == plan.prefix && Replaceable(PlanLocals(tail, i, plan).sigma)
    decreases i
  {
    if i > 0 { LocalsPlain(tail, i - 1, plan); }
  }

  /** The printed condition is read back, whatever the names. */
  lemma PlanReads(h: Helper, args: seq<Expr>, reserved: set<Name>)
    requires Readable(h)
    ensures var plan := FullPlan(h, args, reserved);
      var r := ReplacementOf(h, plan);
      && Printable(r) && Replaceable(plan.sigma) && r.prefix == PlanParams(h, args, |h.params|, reserved).prefix
      && (Guards(h.body) != [] ==> Parse(r.condition.value) == Some(CombinedTree(Guards(h.body), plan.sigma)))
  {
    var start := PlanParams(h, args, |h.params|, reserved);
    ParamsPlain(h, args, |h.params|, reserved);
    if Guards(h.body) == [] {
      LocalsPlain(Tail(h.body), |Tail(h.body)|, start);
    } else {
      AllParsedGuards(Guards(h.body));
      CombinedGuardsParse(Guards(h.body), start.sigma);
    }
  }

  /** A statement that is neither a guard nor a bare `return`. */
  predicate GoesOn(s: Stmt) { !s.Return? && AsGuard(s).None? }

  lemma {:induction false} PrefixGoesOn(h: Helper, args: seq<Expr>, i: nat, reserved: set<Name>)
    requires i <= |h.params|
    ensures forall s :: s in PlanParams(h, args, i, reserved).prefix ==> s.Decl? || s.ExprS?
    decreases i
  {
    if i > 0 { PrefixGoesOn(h, args, i - 1, reserved); }
  }

  lemma ReturnFreeGoesOn(ss: seq<Stmt>, sigma: Subst)
    requires ss != [] && ReturnFree(ss)
    ensures SubstStmts(ss, sigma) != [Return] && GoesOn(SubstStmt(ss[0], sigma))
  {
    SubstAt(ss, sigma, 0);
    if ss[0].If? && ss[0].thn != [] { SubstAt(ss[0].thn, sigma - Declared(ss[0].thn), 0); }
  }

  /** A call is replaced by one statement or more, the first of which is no guard. */
  lemma BlockGoesOn(h: Helper, args: seq<Expr>, reserved: set<Name>)
    requires Readable(h) && Tail(h.body) != [] && ReturnFree(Tail(h.body))
    ensures BlockOf(h, args, reserved) != [] && GoesOn(BlockOf(h, args, reserved)[0])
  {
    var start, plan := PlanParams(h, args, |h.params|, reserved), FullPlan(h, args, reserved);
    var r := ReplacementOf(h, plan);
    PlanReads(h, args, reserved);
    PrefixGoesOn(h, args, |h.params|, reserved);
    ReturnFreeGoesOn(Tail(h.body), plan.sigma);
    if r.prefix != [] {
      assert Inlined(r)[0] == r.prefix[0] && r.prefix[0] in start.prefix;
    } else {
      assert Inlined(r) == Positive(r);
    }
  }

  lemma {:induction false} ReturnAlone(ss: seq<Stmt>, g: Name, h: Helper, reserved: set<Name>)
    requires Readable(h) && Tail(h.body) != [] && ReturnFree(Tail(h.body))
    ensures Rewritten(ss, g, h, reserved) == [Return] <==> ss == [Return]
    ensures Rewritten(ss, g, h, reserved) == [] <==> ss == []
  {
    if ss != [] {
      var next := if CallsIt(ss[0], g) then FullPlan(h, ss[0].e.args, reserved).reserved else reserved;
      var rest := Rewritten(ss[1..], g, h, next);
      ReturnAlone(ss[1..], g, h, next);
      if CallsIt(ss[0], g) {
        BlockGoesOn(h, ss[0].e.args, reserved);
        assert Rewritten(ss, g, h, reserved)[0] == BlockOf(h, ss[0].e.args, reserved)[0];
      } else {
        assert Rewritten(ss, g, h, reserved) == [RewrittenOne(ss[0], g, h)] + rest;
        assert |Rewritten(ss, g, h, reserved)| == 1 <==> rest == [];
      }
    }
  }

  lemma GuardStays(s: Stmt, g: Name, h: Helper)
    requires Readable(h) && Tail(h.body) != [] && ReturnFree(Tail(h.body))
    ensures AsGuard(RewrittenOne(s, g, h)) == AsGuard(s)
  {
    if s.If? { ReturnAlone(s.thn, g, h, Words(s.thn)); }
  }

  /** The leading guards stay, and the rest is rewritten. */
  lemma {:induction false} GuardsStay(ss: seq<Stmt>, g: Name, h: Helper, reserved: set<Name>)
    requires Readable(h) && Tail(h.body) != [] && ReturnFree(Tail(h.body))
    ensures Guards(Rewritten(ss, g, h, reserved)) == Guards(ss)
    ensures Tail(Rewritten(ss, g, h, reserved)) == Rewritten(Tail(ss), g, h, reserved)
    ensures Additions(Tail(ss), g, h, reserved) == Additions(ss, g, h, reserved)
  {
    if ss != [] {
      if CallsIt(ss[0], g) {
        BlockGoesOn(h, ss[0].e.args, reserved);
        assert Rewritten(ss, g, h, reserved)[0] == BlockOf(h, ss[0].e.args, reserved)[0];
      } else {
        var rest := Rewritten(ss[1..], g, h, reserved);
        assert ([RewrittenOne(ss[0], g, h)] + rest)[1..] == rest;
        GuardStays(ss[0], g, h);
        GuardsStay(ss[1..], g, h, reserved);
      }
    }
  }

  // ---- calls ----

  /** `z` is called nowhere but by statements that are calls of `g`. */
  predicate NoOtherCall(ss: seq<Stmt>, g: Name, z: Name)
    decreases ss, 0
  {
    ss == [] || (NoOtherCallInOne(ss[0], g, z) && NoOtherCall(ss[1..], g, z))
  }

  predicate NoOtherCallInOne(s: Stmt, g: Name, z: Name)
    decreases s, 2
  {
    match s
    case ExprS(e) => if CallsIt(s, g) then z !in CalleesOfAll(e.args) else z !in CalleesOf(e)
    case Decl(_, e) => z !in CalleesOf(e)
    case If(c, thn) => z !in CalleesOf(c) && NoOtherCall(thn, g, z)
    case IfElse(c, thn, els) => z !in CalleesOf(c) && NoOtherCall(thn, g, z) && NoOtherCall(els, g, z)
    case Return => true
  }

  lemma {:induction false} NoCallAtAll(ss: seq<Stmt>, g: Name, z: Name)
    requires z !in CalleesIn(ss)
    ensures NoOtherCall(ss, g, z)
    decreases ss, 0
  {
    if ss != [] {
      NoCallInOne(ss[0], g, z);
      NoCallAtAll(ss[1..], g, z);
    }
  }

  lemma {:induction false} NoCallInOne(s: Stmt, g: Name, z: Name)
    requires z !in CalleesInOne(s)
    ensures NoOtherCallInOne(s, g, z)
    decreases s, 2
  {
    match s
    case If(_, thn) => NoCallAtAll(thn, g, z);
    case IfElse(_, thn, els) =>
      NoCallAtAll(thn, g, z);
      NoCallAtAll(els, g, z);
    case _ =>
  }

  /** The block calls what the arguments and the helper's body call. */
  lemma BlockCallees(h: Helper, args: seq<Expr>, reserved: set<Name>)
    requires Readable(h)
    ensures CalleesIn(BlockOf(h, args, reserved)) <= CalleesOfAll(args) + CalleesIn(h.body)
  {
    var start, plan := PlanParams(h, args, |h.params|, reserved), FullPlan(h, args, reserved);
    var r := ReplacementOf(h, plan);
    PlanReads(h, args, reserved);
    PrefixCallees(h, args, |h.params|, reserved);
    CalleesAppend(r.prefix, Positive(r));
    SubstStmtsCallees(Tail(h.body), plan.sigma);
    GuardsAndTailCallees(h.body);
    if Guards(h.body) != [] {
      JoinedCallees(Guards(h.body), plan.sigma);
      assert Positive(r)[1..] == [];
    }
  }

  /** A name that is called nowhere else is not called once the calls of `g` are replaced. */
  lemma {:induction false} CallsLeft(ss: seq<Stmt>, g: Name, h: Helper, reserved: set<Name>, z: Name)
    requires Readable(h) && NoOtherCall(ss, g, z) && z !in CalleesIn(h.body)
    ensures z !in CalleesIn(Rewritten(ss, g, h, reserved))
    decreases ss, 0
  {
    if ss != [] {
      if CallsIt(ss[0], g) {
        var args := ss[0].e.args;
        var next := FullPlan(h, args, reserved).reserved;
        CallsLeft(ss[1..], g, h, next, z);
        BlockCallees(h, args, reserved);
        CalleesAppend(BlockOf(h, args, reserved), Rewritten(ss[1..], g, h, next));
      } else {
        var rest := Rewritten(ss[1..], g, h, reserved);
        CallsLeft(ss[1..], g, h, reserved, z);
        CallsLeftInOne(ss[0], g, h, z);
        assert ([RewrittenOne(ss[0], g, h)] + rest)[1..] == rest;
      }
    }
  }

  lemma {:induction false} CallsLeftInOne(s: Stmt, g: Name, h: Helper, z: Name)
    requires Readable(h) && NoOtherCallInOne(s, g, z) && !CallsIt(s, g) && z !in CalleesIn(h.body)
    ensures z !in CalleesInOne(RewrittenOne(s, g, h))
    decreases s, 2
  {
    match s
    case If(_, thn) => CallsLeft(thn, g, h, Words(thn), z);
    case IfElse(_, thn, els) =>
      CallsLeft(thn, g, h, Words(thn), z);
      CallsLeft(els, g, h, Words(els), z);
    case _ =>
  }

  // ---- a function ----

  function RewrittenHelper(f: Helper, g: Name, h: Helper): Helper {
    Helper(f.params, RewrittenBlock(f.body, g, h))
  }

  /** The names added to the outermost block of a function are none of its parameters. The tool does not see
      to that: a parameter the body does not mention is not reserved. */
  predicate KeepsParams(f: Helper, g: Name, h: Helper) {
    Params(f) !! (Declared(RewrittenBlock(f.body, g, h)) - Declared(f.body))
  }

  /** A legal function stays legal if and only if no added name is one of its parameters. */
  lemma RewrittenIsLegalIff(f: Helper, g: Name, h: Helper)
    requires LegalHelper(f) && LegalHelper(h) && Tail(h.body) != [] && ReturnFree(Tail(h.body))
    ensures LegalHelper(RewrittenHelper(f, g, h)) <==> KeepsParams(f, g, h)
  {
    var reserved, tail := Words(f.body), Tail(f.body);
    DeclaredAreWords(f.body);
    GuardsDeclareNothing(f.body);
    GuardsStay(f.body, g, h, reserved);
    GuardsDeclareNothing(RewrittenBlock(f.body, g, h));
    AdditionsAreNew(f.body, g, h, reserved);
    RewrittenIsLegal(tail, g, h, reserved);
  }

  /** The guards stay readable, early errors or not. */
  lemma RewrittenIsReadable(f: Helper, g: Name, h: Helper)
    requires Readable(f) && Readable(h) && Tail(h.body) != [] && ReturnFree(Tail(h.body))
    ensures Readable(RewrittenHelper(f, g, h))
  {
    GuardsStay(f.body, g, h, Words(f.body));
  }
}
