/** What a call site must provide, and how exact the tool's own test of it is. */
module CallSites {
  import opened JsLang
  import opened GuardInversion
  import opened Renaming
  import opened CallerFrames
  import opened InlinePlan

  /** Names the body takes from outside the helper, scope by scope. */
  function TrulyFree(h: Helper): set<Name> {
    GuardNames(Guards(h.body)) + FreeInBlock(Tail(h.body)) - Params(h)
  }

  /** The tail moves into a block under the condition, so that the condition no longer sees its locals. */
  predicate GuardsSeeNoLocals(h: Helper) {
    GuardNames(Guards(h.body)) !! Locals(h)
  }

  /** No name the block adds is one that the helper takes from outside. */
  predicate NoClash(h: Helper, sigma: Subst) {
    forall x :: x in sigma && sigma[x].Var? ==> sigma[x].x !in TrulyFree(h)
  }

  /** No reference is replaced by a name declared between it and the block. After guards, the tail
      itself becomes such a declaring block. */
  predicate NoInnerCapture(h: Helper, sigma: Subst) {
    if Guards(h.body) == [] then Clear(Tail(h.body), sigma) else ClearBlock(Tail(h.body), sigma)
  }

  /** The names bound around the call are not names that the helper takes from outside. */
  predicate Unshadowed(h: Helper, scopes: Scopes, sh: Shared, own: bool) {
    TrulyFree(h) !! Bound(scopes) && (own || TrulyFree(h) !! sh.outer.Keys)
  }

  /** What the guards and the frames need of a helper and a plan. */
  predicate Suitable(h: Helper, sigma: Subst) {
    && LegalHelper(h) && ReturnFree(Tail(h.body)) && GuardsSeeNoLocals(h) && NoClash(h, sigma)
    && forall p :: p in h.params ==> p !in ArgWrites(Guards(h.body)) + Alters(Tail(h.body))
  }

  /** Everything about a helper and a plan that does not depend on where the call is. */
  predicate Inlinable(h: Helper, sigma: Subst) { Suitable(h, sigma) && NoInnerCapture(h, sigma) }

  // ---- the tool's own test for shadowing ----

  /** The tool overlooks exactly the free names that the tail also declares. */
  lemma ToolFreeNames(h: Helper)
    ensures FreeNames(h) == TrulyFree(h) - DeclaredInBlock(Tail(h.body))
  {
  }

  /** The test rejects no call site without need. It is wrong about one exactly when it accepts it although
      a free name is bound there, and then the tail declares that name. */
  lemma ShadowTestIsExactIff(h: Helper, scope: set<Name>)
    ensures CallSiteShadows(h, scope) ==> !(TrulyFree(h) !! scope)
    ensures (CallSiteShadows(h, scope) <==> !(TrulyFree(h) !! scope))
       <==> (CallSiteShadows(h, scope) || TrulyFree(h) * scope * DeclaredInBlock(Tail(h.body)) == {})
  {
    ToolFreeNames(h);
    assert FreeNames(h) * scope == TrulyFree(h) * scope - DeclaredInBlock(Tail(h.body));
    if CallSiteShadows(h, scope) {
      var x :| x in FreeNames(h) * scope;
      assert x in TrulyFree(h) && x in scope;
    } else if !(TrulyFree(h) !! scope) {
      var x :| x in TrulyFree(h) && x in scope;
      assert x !in FreeNames(h) * scope;
      assert x in TrulyFree(h) * scope * DeclaredInBlock(Tail(h.body));
    }
  }

  /** No name is both taken from outside and declared somewhere in the tail. */
  predicate Hygienic(h: Helper) {
    TrulyFree(h) !! DeclaredInBlock(Tail(h.body))
  }

  /** The test is right about every call site if and only if no name is both free and declared in the tail. */
  lemma ShadowTestIsRightIffHygienic(h: Helper)
    ensures Hygienic(h) <==> forall scope :: CallSiteShadows(h, scope) <==> !(TrulyFree(h) !! scope)
  {
    if Hygienic(h) {
      forall scope ensures CallSiteShadows(h, scope) <==> !(TrulyFree(h) !! scope) {
        ShadowTestIsExactIff(h, scope);
        assert TrulyFree(h) * scope * DeclaredInBlock(Tail(h.body)) == {};
      }
    } else {
      var x :| x in TrulyFree(h) && x in DeclaredInBlock(Tail(h.body));
      ToolFreeNames(h);
      assert !CallSiteShadows(h, {x}) && !(TrulyFree(h) !! {x});
    }
  }

  // ---- names the plan introduces ----

  /** The names that the inlined code resolves in the frame of the block it stands in. */
  function OuterNames(h: Helper): set<Name> {
    GuardNames(Guards(h.body)) + if Guards(h.body) == [] then Mentions(Tail(h.body)) else FreeInBlock(Tail(h.body))
  }
}
