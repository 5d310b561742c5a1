/** Machines that run the functions of a file, built one function at a time. */
module FileMachines {
  import opened JsLang
  import opened Renaming
  import opened InlinePlan
  import opened InlineCorrect
  import opened CallSites
  import opened Callees
  import opened Rewriting
  import opened InlineRounds
  import opened InlineLimits

  // ---- files without recursion ----

  /** All functions of the file, in an order in which none calls itself or one that comes later. */
  ghost predicate Ordered(file: File, order: seq<Name>) {
    && Distinct(order) && (forall f :: f in order <==> f in file) && (forall i :: 0 <= i < |order| ==> order[i] in file)
    && forall i, j :: 0 <= i <= j < |order| ==> order[j] !in CalleesIn(file[order[i]].body)
  }

  /** The machine with one more function. */
  function With(below: Machine, g: Name, h: Helper): Machine {
    below.(call := (f, vs, sh) => if f == g then RunHelper(below, h, vs, sh) else below.call(f, vs, sh))
  }

  /** Primitives do what they do on `base`; the first `k` functions run their bodies. */
  function Layered(base: Machine, file: File, order: seq<Name>, k: nat): (m: Machine)
    requires k <= |order| && forall i :: 0 <= i < |order| ==> order[i] in file
    ensures m.silent == file.Keys
  {
    if k == 0 then base.(silent := file.Keys)
    else With(Layered(base, file, order, k - 1), order[k - 1], file[order[k - 1]])
  }

  lemma WithAgrees(below: Machine, g: Name, h: Helper, names: set<Name>)
    requires g !in names
    ensures AgreeOn(below, With(below, g, h), names)
  {
  }

  /** Code that does not call the new function runs as before. */
  lemma WithKeeps(below: Machine, g: Name, h: Helper, other: Helper)
    requires g !in CalleesIn(other.body)
    ensures forall vs, sh :: RunHelper(With(below, g, h), other, vs, sh) == RunHelper(below, other, vs, sh)
  {
    forall vs, sh ensures RunHelper(With(below, g, h), other, vs, sh) == RunHelper(below, other, vs, sh) {
      WithAgrees(below, g, h, CalleesIn(other.body));
      HelperAgrees(below, With(below, g, h), other, vs, sh);
    }
  }

  /** Calling `f` runs `h`. */
  ghost predicate Does(m: Machine, f: Name, h: Helper) {
    forall vs, sh :: m.call(f, vs, sh) == RunHelper(m, h, vs, sh)
  }

  lemma WithDoes(below: Machine, g: Name, h: Helper)
    requires g !in CalleesIn(h.body)
    ensures Does(With(below, g, h), g, h)
  {
    WithKeeps(below, g, h, h);
  }

  lemma WithStillDoes(below: Machine, g: Name, h: Helper, f: Name, other: Helper)
    requires Does(below, f, other) && f != g && g !in CalleesIn(other.body)
    ensures Does(With(below, g, h), f, other)
  {
    WithKeeps(below, g, h, other);
  }

  lemma {:induction false} LayeredDoes(base: Machine, file: File, order: seq<Name>, k: nat, i: nat)
    requires Ordered(file, order) && i < k <= |order|
    ensures Does(Layered(base, file, order, k), order[i], file[order[i]])
    decreases k
  {
    var below, last := Layered(base, file, order, k - 1), order[k - 1];
    if i < k - 1 {
      LayeredDoes(base, file, order, k - 1, i);
      WithStillDoes(below, last, file[last], order[i], file[order[i]]);
    } else {
      WithDoes(below, last, file[last]);
    }
  }

  /** Every legal file without recursion is run by a machine, whatever the primitives do. */
  lemma MachineExists(base: Machine, file: File, order: seq<Name>)
    requires Ordered(file, order) && forall f :: f in file ==> LegalHelper(file[f])
    ensures Implements(Layered(base, file, order, |order|), file)
  {
    forall f | f in file ensures Runs(Layered(base, file, order, |order|), f, file[f]) {
      var i :| 0 <= i < |order| && order[i] == f;
      LayeredDoes(base, file, order, |order|, i);
    }
  }

  // ---- a round that the theorem covers ----

  const TWO: File := map["A" := HELPER_A, "B" := B_BEFORE]
  const BOTH := ["A", "B"]

  /** `A` is inlined into `B`, and whatever the primitives do, the file that is left does what it did. */
  lemma RoundOfTwo(base: Machine)
    ensures Ordered(TWO, BOTH)
    ensures var m := Layered(base, TWO, BOTH, 2);
      && Implements(m, TWO) && RoundFine(m, TWO, "A") && RoundKeepsParams(TWO, "A")
      && Round(TWO, "A") == map["B" := HELPER_B] && Implements(m, map["B" := HELPER_B])
  {
    var m := Layered(base, TWO, BOTH, 2);
    TwoIsOrdered();
    TwoIsLegal();
    MachineExists(base, TWO, BOTH);
    TwoRoundIsFine(m);
    TwoRound();
    RoundKeepsMeaning(m, TWO, "A");
  }

  lemma TwoRoundIsFine(m: Machine)
    ensures RoundFine(m, TWO, "A")
  {
    TwoIsFine();
    TwoCalls();
    AUnguarded();
    PairIsFine(m, "A", HELPER_A, "B", B_BEFORE);
  }

  /** A file of two functions, the first of which has no guards and does not call itself. */
  lemma PairIsFine(m: Machine, g: Name, h: Helper, f: Name, caller: Helper)
    requires g != f && h.body != [] && Guards(h.body) == [] && Tail(h.body) == h.body && ReturnFree(h.body)
    requires g !in CalleesIn(h.body) && NoOtherCall(caller.body, g, g) && FineBlock(caller.body, g, h, Params(caller))
    ensures RoundFine(m, map[g := h, f := caller], g)
  {
    forall vs, sh ensures BlockCompares(m, g, h, caller.body, StartOf(caller, vs, sh)) {
      UnrelatedBlockCompares(m, g, h, caller.body, StartOf(caller, vs, sh));
    }
  }

  lemma AUnguarded()
    ensures Guards(HELPER_A.body) == [] && Tail(HELPER_A.body) == HELPER_A.body != [] && ReturnFree(HELPER_A.body)
  {
    assert HELPER_A.body[1..] == [];
  }

  lemma TwoRound()
    ensures Round(TWO, "A") == map["B" := HELPER_B] && RoundKeepsParams(TWO, "A")
  {
    BRewritten();
    var after := Round(TWO, "A");
    assert forall f :: f in after <==> f == "B";
    assert after["B"] == HELPER_B;
  }

  lemma BRewritten()
    ensures RewrittenHelper(B_BEFORE, "A", HELPER_A) == HELPER_B && KeepsParams(B_BEFORE, "A", HELPER_A)
  {
    FirstRound();
    AddedToB();
    assert Params(B_BEFORE) == {"x"};
  }

  lemma {:induction false} TwoCalls()
    ensures CalleesIn(HELPER_A.body) == {"use"} && CalleesIn(B_BEFORE.body) == {"A", "get"}
    ensures NoOtherCall(B_BEFORE.body, "A", "A")
  {
    var call, rest := [Call("get", [Var("x")])], [B_BEFORE.body[1]];
    assert call[1..] == [] && [Var("x")][1..] == [];
    assert HELPER_A.body[1..] == [];
    assert B_BEFORE.body[1..] == rest && rest[1..] == [] && [Return][1..] == [];
    assert CalleesOfAll(call) == {"get"};
    assert rest[0].e.f == "A" && rest[0].e.args == call && NoOtherCallInOne(rest[0], "A", "A");
    assert NoOtherCall(rest, "A", "A") && NoOtherCall([Return], "A", "A");
  }

  lemma TwoIsOrdered()
    ensures Ordered(TWO, BOTH)
  {
    TwoCalls();
    assert BOTH[0] == "A" && BOTH[1] == "B";
  }

  lemma {:induction false} TwoIsLegal()
    ensures LegalHelper(HELPER_A) && LegalHelper(B_BEFORE)
  {
    var body, tail, guards := B_BEFORE.body, [B_BEFORE.body[1]], [Not(Var("x"))];
    assert HELPER_A.body[1..] == [] && Declared(HELPER_A.body) == {};
    assert body[1..] == tail && tail[1..] == [] && Guards(tail) == [] && Tail(tail) == tail;
    assert Guards(body) == guards && guards[1..] == [] && Declared(tail) == {};
  }

  lemma AddedToB()
    ensures Declared(HELPER_B.body) == {"__inl_x"}
  {
    BShape();
    GuardsDeclareNothing(HELPER_B.body);
  }

  lemma {:induction false} AIsInlinable()
    ensures TrulyFree(HELPER_A) == {"use"} && Inlinable(HELPER_A, map["x" := Var("__inl_x")])
  {
    TwoIsLegal();
    NamesOfCall("use", "x");
    CallWritesNothing("use", "x");
    assert HELPER_A.body[1..] == [] && Declared(HELPER_A.body) == {};
    assert Mentions(HELPER_A.body) == {"use", "x"};
  }

  lemma {:induction false} TwoIsFine()
    ensures FineBlock(B_BEFORE.body, "A", HELPER_A, Params(B_BEFORE))
  {
    var body, scope := B_BEFORE.body, Params(B_BEFORE) + Declared(HELPER_B.body);
    FirstRound();
    WordsOfB();
    CallOfAIsFine();
    assert body[1..] == [body[1]] && [body[1]][1..] == [] && [Return][1..] == [];
    assert Fine([body[1]], "A", HELPER_A, {"x", "A", "get"}, scope);
    assert FineOne(body[0], "A", HELPER_A, scope);
  }

  lemma CallOfAIsFine()
    ensures CallFine(HELPER_A, [Call("get", [Var("x")])], {"x", "A", "get"}, Params(B_BEFORE) + Declared(HELPER_B.body))
  {
    AddedToB();
    AIsInlinable();
    PlanForA();
    assert Params(B_BEFORE) == {"x"};
  }
}
