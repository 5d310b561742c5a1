/** No block declares a name twice: what substitution and the planned statements keep of that. */
module EarlyErrors {
  import opened JsLang
  import opened GuardInversion
  import opened Renaming
  import opened InlinePlan
  import opened InlineCorrect

  lemma DistinctAppend(a: seq<Stmt>, b: seq<Stmt>)
    requires DistinctLocals(a) && DistinctLocals(b) && Declared(a) !! Declared(b)
    ensures DistinctLocals(a + b)
  {
    var all := a + b;
    forall i, j | 0 <= i < j < |all| && all[i].Decl? && all[j].Decl? ensures all[i].x != all[j].x {
      if i < |a| <= j {
        assert all[i] in a && all[j] in b;
        assert all[i].x in Declared(a) && all[j].x in Declared(b);
      }
    }
  }

  lemma DistinctTail(s: Stmt, rest: seq<Stmt>)
    requires DistinctLocals([s] + rest)
    ensures DistinctLocals(rest) && (s.Decl? ==> s.x !in Declared(rest))
  {
    var all := [s] + rest;
    forall i, j | 0 <= i < j < |rest| && rest[i].Decl? && rest[j].Decl? ensures rest[i].x != rest[j].x {
      assert all[i + 1] == rest[i] && all[j + 1] == rest[j];
    }
    forall t | t in rest && t.Decl? && s.Decl? ensures s.x != t.x {
      var j :| 0 <= j < |rest| && rest[j] == t;
      assert all[0] == s && all[j + 1] == t;
    }
  }

  lemma {:induction false} LegalInsideAppend(a: seq<Stmt>, b: seq<Stmt>)
    ensures LegalInside(a + b) <==> LegalInside(a) && LegalInside(b)
  {
    if a == [] {
      assert a + b == b;
    } else {
      assert (a + b)[1..] == a[1..] + b;
      LegalInsideAppend(a[1..], b);
    }
  }

  /** Two legal lists of statements that share no name, one after the other. */
  lemma LegalAppend(a: seq<Stmt>, b: seq<Stmt>)
    requires LegalBlock(a) && LegalBlock(b) && Declared(a) !! Declared(b)
    ensures LegalBlock(a + b)
  {
    DistinctAppend(a, b);
    LegalInsideAppend(a, b);
  }

  // ---- substitution ----

  /** Renaming the names of a block one to one keeps it legal; in nested blocks it renames no declaration. */
  lemma {:induction false} SubstIsLegal(ss: seq<Stmt>, sigma: Subst)
    requires LegalBlock(ss) && OneToOne(Declared(ss), sigma)
    ensures LegalBlock(SubstStmts(ss, sigma))
    decreases ss, 1
  {
    SubstIsDistinct(ss, sigma);
    SubstInside(ss, sigma);
  }

  lemma {:induction false} SubstAt(ss: seq<Stmt>, sigma: Subst, i: nat)
    requires i < |ss|
    ensures SubstStmts(ss, sigma)[i] == SubstStmt(ss[i], sigma)
  {
    if i > 0 { SubstAt(ss[1..], sigma, i - 1); }
  }

  lemma SubstIsDistinct(ss: seq<Stmt>, sigma: Subst)
    requires DistinctLocals(ss) && OneToOne(Declared(ss), sigma)
    ensures DistinctLocals(SubstStmts(ss, sigma))
  {
    var out := SubstStmts(ss, sigma);
    forall i, j | 0 <= i < j < |out| && out[i].Decl? && out[j].Decl? ensures out[i].x != out[j].x {
      SubstAt(ss, sigma, i);
      SubstAt(ss, sigma, j);
      assert ss[i] in ss && ss[j] in ss;
      assert ss[i].x in Declared(ss) && ss[j].x in Declared(ss);
    }
  }

  lemma {:induction false} SubstInside(ss: seq<Stmt>, sigma: Subst)
    requires LegalInside(ss)
    ensures LegalInside(SubstStmts(ss, sigma))
    decreases ss, 0
  {
    if ss != [] {
      SubstInOne(ss[0], sigma);
      SubstInside(ss[1..], sigma);
    }
  }

  lemma {:induction false} SubstInOne(s: Stmt, sigma: Subst)
    requires LegalInOne(s)
    ensures LegalInOne(SubstStmt(s, sigma))
    decreases s, 2
  {
    match s
    case If(_, thn) => SubstIsLegal(thn, sigma - Declared(thn));
    case IfElse(_, thn, els) =>
      SubstIsLegal(thn, sigma - Declared(thn));
      SubstIsLegal(els, sigma - Declared(els));
    case _ =>
  }

  // ---- the prefix ----

  /** Every temporary is declared once. */
  lemma {:induction false} PrefixIsLegal(h: Helper, args: seq<Expr>, i: nat, reserved: set<Name>)
    requires i <= |h.params| && Distinct(h.params)
    ensures LegalBlock(PlanParams(h, args, i, reserved).prefix)
    decreases i
  {
    if i > 0 {
      var before := PlanParams(h, args, i - 1, reserved);
      PrefixIsLegal(h, args, i - 1, reserved);
      PlanParamsFacts(h, args, i - 1, reserved);
      PrefixGrows(h, args, i, before);
      if i <= |args| { StatementIsLegal(h, args, i, before); }
    }
  }

  lemma StatementIsLegal(h: Helper, args: seq<Expr>, i: nat, before: Plan)
    requires 0 < i <= |h.params| && i <= |args|
    requires LegalBlock(before.prefix) && Declared(before.prefix) <= before.reserved
    ensures LegalBlock(before.prefix + StatementFor(h, args, i, before))
  {
    var more := StatementFor(h, args, i, before);
    assert |more| <= 1 && LegalBlock(more) by { if more != [] { assert more[1..] == []; } }
    assert Declared(more) !! before.reserved;
    LegalAppend(before.prefix, more);
  }
}
