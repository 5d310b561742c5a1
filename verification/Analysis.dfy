/** The functions the analysis accepts. */
module Analysis {
  import opened JsLang
  import opened InlinePlan
  import opened Renaming
  import opened Callees
  import opened Rewriting
  import opened InlineRounds

  /** The functions in the order of the source, those that qualify by their declaration (not exported, not
      asynchronous, and so on), and the largest tail allowed. */
  datatype Options = Options(order: seq<Name>, eligible: set<Name>, maxStatements: nat)

  // ---- the analysis ----

  /** Every call of `g` passes no more arguments than there are parameters, and no enclosing scope seems to
      shadow a free name. */
  predicate SitesAccepted(ss: seq<Stmt>, g: Name, h: Helper, scope: set<Name>)
    decreases ss, 0
  {
    ss == [] || (SiteAccepted(ss[0], g, h, scope) && SitesAccepted(ss[1..], g, h, scope))
  }

  predicate SiteAccepted(s: Stmt, g: Name, h: Helper, scope: set<Name>)
    decreases s, 2
  {
    match s
    case ExprS(e) => CallsIt(s, g) ==> |e.args| <= |h.params| && !CallSiteShadows(h, scope)
    case If(_, thn) => SitesAccepted(thn, g, h, scope + Declared(thn))
    case IfElse(_, thn, els) =>
      SitesAccepted(thn, g, h, scope + Declared(thn)) && SitesAccepted(els, g, h, scope + Declared(els))
    case _ => true
  }

  /** `g` is not recursive, is called by statements alone and at least once, and passes all other checks. */
  predicate IsCandidate(opts: Options, file: File, g: Name) {
    && g in file && g in opts.eligible && Accepted(file[g], opts.maxStatements)
    && g !in CalleesIn(file[g].body) && OtherCallsPass(file, g) && CalledByOther(file, g)
  }

  function CandidatesIn(opts: Options, file: File, names: seq<Name>): (r: seq<Name>)
    ensures forall g :: g in r <==> g in names && IsCandidate(opts, file, g)
  {
    if names == [] then []
    else
      var init, last := CandidatesIn(opts, file, names[..|names| - 1]), names[|names| - 1];
      if IsCandidate(opts, file, last) then init + [last] else init
  }

  function Candidates(opts: Options, file: File): seq<Name> { CandidatesIn(opts, file, opts.order) }

  lemma OneMore(opts: Options, file: File, names: seq<Name>, i: nat)
    requires i < |names|
    ensures CandidatesIn(opts, file, names[..i + 1])
         == CandidatesIn(opts, file, names[..i]) + if IsCandidate(opts, file, names[i]) then [names[i]] else []
  {
    assert names[..i + 1][..i] == names[..i];
  }

  method CollectCandidates(opts: Options, file: File) returns (out: seq<Name>)
    ensures out == Candidates(opts, file)
  {
    out := [];
    for i := 0 to |opts.order|
      invariant out == CandidatesIn(opts, file, opts.order[..i])
    {
      OneMore(opts, file, opts.order, i);
      if IsCandidate(opts, file, opts.order[i]) { out := out + [opts.order[i]]; }
    }
    assert opts.order[..|opts.order|] == opts.order;
  }

  // ---- what a candidate is ----

  /** The statements of a block, those of nested blocks included, each with the names bound around it. */
  function Places(ss: seq<Stmt>, scope: set<Name>): set<(Stmt, set<Name>)>
    decreases ss, 1
  {
    PlacesIn(ss, scope + Declared(ss))
  }

  function PlacesIn(ss: seq<Stmt>, inside: set<Name>): set<(Stmt, set<Name>)>
    decreases ss, 0
  {
    if ss == [] then {} else {(ss[0], inside)} + PlacesBelow(ss[0], inside) + PlacesIn(ss[1..], inside)
  }

  function PlacesBelow(s: Stmt, inside: set<Name>): set<(Stmt, set<Name>)>
    decreases s, 2
  {
    match s
    case If(_, thn) => Places(thn, inside)
    case IfElse(_, thn, els) => Places(thn, inside) + Places(els, inside)
    case _ => {}
  }

  /** What the statement calls itself, not counting nested blocks. */
  function OwnCallees(s: Stmt): set<Name> {
    match s
    case ExprS(e) => CalleesOf(e)
    case Decl(_, e) => CalleesOf(e)
    case If(c, _) => CalleesOf(c)
    case IfElse(c, _, _) => CalleesOf(c)
    case Return => {}
  }

  /** The statement `g(args);`, and nothing else about `g`. */
  predicate Site(s: Stmt, g: Name) { s.ExprS? && s.e.Call? && s.e.f == g && g !in CalleesOfAll(s.e.args) }

  /** A statement that calls `g` is nothing but a call of it, with no surplus argument and where none of the names in
      `free` is bound. */
  predicate FitsCall(p: (Stmt, set<Name>), g: Name, h: Helper, free: set<Name>) {
    g in OwnCallees(p.0) ==> Site(p.0, g) && |p.0.e.args| <= |h.params| && free !! p.1
  }

  predicate BareGuard(s: Stmt) { s.If? && s.thn == [Return] }

  /** The body has `n` leading guards, and after them at least one and at most `most` statements. */
  predicate TailFits(body: seq<Stmt>, n: nat, most: nat) {
    && n < |body| && |body| - n <= most && !BareGuard(body[n])
    && forall i :: 0 <= i < n ==> BareGuard(body[i])
  }

  /** The function may be inlined everywhere: its tail fits and never returns, it assigns no parameter and does not call
      itself, all its calls in the file fit, and there is one. */
  ghost predicate MayInline(opts: Options, file: File, g: Name) {
    && g in file && g in opts.eligible
    && var h := file[g];
    && (exists n :: TailFits(h.body, n, opts.maxStatements))
    && (forall p :: p in Places(Tail(h.body), {}) ==> !p.0.Return?)
    && Params(h) !! ArgWrites(Guards(h.body)) + Alters(Tail(h.body))
    && (forall p :: p in Places(h.body, {}) ==> g !in OwnCallees(p.0))
    && OtherCallsFit(file, g) && OtherHasSite(file, g)
  }

  lemma {:induction false} TailIs(body: seq<Stmt>, n: nat, most: nat)
    requires TailFits(body, n, most)
    ensures Tail(body) == body[n..]
  {
    if n > 0 {
      assert BareGuard(body[0]);
      assert TailFits(body[1..], n - 1, most);
      TailIs(body[1..], n - 1, most);
      assert body[1..][n - 1..] == body[n..];
    }
  }

  lemma {:induction false} TailStarts(body: seq<Stmt>) returns (n: nat)
    ensures n <= |body| && Tail(body) == body[n..] && (n < |body| ==> !BareGuard(body[n]))
    ensures forall i :: 0 <= i < n ==> BareGuard(body[i])
  {
    n := 0;
    if body != [] && AsGuard(body[0]).Some? {
      n := TailStarts(body[1..]);
      assert body[1..][n..] == body[n + 1..];
      n := n + 1;
    }
  }

  lemma TailSize(body: seq<Stmt>, most: nat)
    ensures 0 < |Tail(body)| <= most <==> exists n :: TailFits(body, n, most)
  {
    var n := TailStarts(body);
    if 0 < |Tail(body)| <= most { assert TailFits(body, n, most); }
    if k :| TailFits(body, k, most) { TailIs(body, k, most); }
  }

  lemma {:induction false} ReturnFreePlaces(ss: seq<Stmt>, inside: set<Name>)
    ensures ReturnFree(ss) <==> forall p :: p in PlacesIn(ss, inside) ==> !p.0.Return?
    decreases ss, 0
  {
    if ss != [] {
      ReturnFreeBelow(ss[0], inside);
      ReturnFreePlaces(ss[1..], inside);
      assert (ss[0], inside) in PlacesIn(ss, inside);
    }
  }

  lemma {:induction false} ReturnFreeBelow(s: Stmt, inside: set<Name>)
    ensures ReturnFreeOne(s) <==> !s.Return? && forall p :: p in PlacesBelow(s, inside) ==> !p.0.Return?
    decreases s, 2
  {
    match s
    case If(_, thn) => ReturnFreePlaces(thn, inside + Declared(thn));
    case IfElse(_, thn, els) =>
      ReturnFreePlaces(thn, inside + Declared(thn));
      ReturnFreePlaces(els, inside + Declared(els));
    case _ =>
  }

  lemma {:induction false} CalledPlaces(ss: seq<Stmt>, inside: set<Name>, g: Name)
    ensures g in CalleesIn(ss) <==> exists p :: p in PlacesIn(ss, inside) && g in OwnCallees(p.0)
    decreases ss, 0
  {
    if ss != [] {
      var first, rest := (ss[0], inside), PlacesIn(ss[1..], inside);
      CalledBelow(ss[0], inside, g);
      CalledPlaces(ss[1..], inside, g);
      assert first in PlacesIn(ss, inside);
      assert PlacesIn(ss, inside) == {first} + PlacesBelow(ss[0], inside) + rest;
    }
  }

  lemma {:induction false} CalledBelow(s: Stmt, inside: set<Name>, g: Name)
    ensures g in CalleesInOne(s) <==>
            g in OwnCallees(s) || exists p :: p in PlacesBelow(s, inside) && g in OwnCallees(p.0)
    decreases s, 2
  {
    match s
    case If(_, thn) => CalledPlaces(thn, inside + Declared(thn), g);
    case IfElse(_, thn, els) =>
      CalledPlaces(thn, inside + Declared(thn), g);
      CalledPlaces(els, inside + Declared(els), g);
    case _ =>
  }

  /** All calls of `g` in the statements pass the tests of the analysis. */
  predicate Passes(ss: seq<Stmt>, g: Name, h: Helper, inside: set<Name>) {
    NoOtherCall(ss, g, g) && SitesAccepted(ss, g, h, inside)
  }

  ghost predicate AllFit(places: set<(Stmt, set<Name>)>, g: Name, h: Helper) {
    forall p :: p in places ==> FitsCall(p, g, h, FreeNames(h))
  }

  lemma {:induction false} PassesIsFitting(ss: seq<Stmt>, g: Name, h: Helper, inside: set<Name>)
    ensures Passes(ss, g, h, inside) <==> AllFit(PlacesIn(ss, inside), g, h)
    decreases ss, 0
  {
    if ss != [] {
      PassesBelow(ss[0], g, h, inside);
      PassesIsFitting(ss[1..], g, h, inside);
      assert PlacesIn(ss, inside) == {(ss[0], inside)} + PlacesBelow(ss[0], inside) + PlacesIn(ss[1..], inside);
      AllFitTogether({(ss[0], inside)} + PlacesBelow(ss[0], inside), PlacesIn(ss[1..], inside), g, h);
      AllFitTogether({(ss[0], inside)}, PlacesBelow(ss[0], inside), g, h);
      AllFitOne((ss[0], inside), g, h);
    }
  }

  lemma AllFitTogether(a: set<(Stmt, set<Name>)>, b: set<(Stmt, set<Name>)>, g: Name, h: Helper)
    ensures AllFit(a + b, g, h) <==> AllFit(a, g, h) && AllFit(b, g, h)
  {
  }

  lemma AllFitOne(p: (Stmt, set<Name>), g: Name, h: Helper)
    ensures AllFit({p}, g, h) <==> FitsCall(p, g, h, FreeNames(h))
  {
  }

  lemma {:induction false} PassesBelow(s: Stmt, g: Name, h: Helper, inside: set<Name>)
    ensures NoOtherCallInOne(s, g, g) && SiteAccepted(s, g, h, inside)
       <==> FitsCall((s, inside), g, h, FreeNames(h)) && AllFit(PlacesBelow(s, inside), g, h)
    decreases s, 2
  {
    match s
    case If(_, thn) => PassesIsFitting(thn, g, h, inside + Declared(thn));
    case IfElse(_, thn, els) =>
      PassesIsFitting(thn, g, h, inside + Declared(thn));
      PassesIsFitting(els, g, h, inside + Declared(els));
      AllFitTogether(Places(thn, inside), Places(els, inside), g, h);
    case ExprS(_) => Apart(FreeNames(h), inside);
    case _ =>
  }

  lemma Apart<T>(a: set<T>, b: set<T>)
    ensures a * b == {} <==> a !! b
  {
    if a * b == {} {
      forall x ensures !(x in a && x in b) { assert x !in a * b; }
    }
  }

  predicate HasSite(places: set<(Stmt, set<Name>)>, g: Name) {
    exists p :: p in places && Site(p.0, g)
  }

  /** Where all calls fit, calling `g` at all is having a statement that calls it. */
  lemma CalledBySite(ss: seq<Stmt>, scope: set<Name>, g: Name, h: Helper)
    requires AllFit(Places(ss, scope), g, h)
    ensures g in CalleesIn(ss) <==> HasSite(Places(ss, scope), g)
  {
    CalledPlaces(ss, scope + Declared(ss), g);
    if g in CalleesIn(ss) {
      var p :| p in Places(ss, scope) && g in OwnCallees(p.0);
      assert FitsCall(p, g, h, FreeNames(h));
    }
  }

  /** The analysis accepts exactly these functions. */
  lemma CandidateIff(opts: Options, file: File, g: Name)
    ensures IsCandidate(opts, file, g) <==> MayInline(opts, file, g)
  {
    if g in file {
      var h := file[g];
      TailSize(h.body, opts.maxStatements);
      ReturnFreePlaces(Tail(h.body), {} + Declared(Tail(h.body)));
      CalledPlaces(h.body, {} + Declared(h.body), g);
      AssignsNoParam(h);
      OthersPass(file, g);
    }
  }

  lemma AssignsNoParam(h: Helper)
    ensures (forall p :: p in h.params ==> p !in ArgWrites(Guards(h.body)) + Alters(Tail(h.body)))
       <==> Params(h) !! ArgWrites(Guards(h.body)) + Alters(Tail(h.body))
  {
  }

  lemma OthersPass(file: File, g: Name)
    requires g in file
    ensures OtherCallsPass(file, g) && CalledByOther(file, g) <==> OtherCallsFit(file, g) && OtherHasSite(file, g)
  {
    forall f | f in file
      ensures Passes(file[f].body, g, file[g], Params(file[f]) + Declared(file[f].body))
         <==> AllFit(Places(file[f].body, Params(file[f])), g, file[g])
    {
      PassesIsFitting(file[f].body, g, file[g], Params(file[f]) + Declared(file[f].body));
    }
    if OtherCallsFit(file, g) {
      forall f | f in file && f != g
        ensures g in CalleesIn(file[f].body) <==> HasSite(Places(file[f].body, Params(file[f])), g)
      {
        CalledBySite(file[f].body, Params(file[f]), g, file[g]);
      }
    }
  }

  predicate OtherCallsPass(file: File, g: Name)
    requires g in file
  {
    forall f :: f in file && f != g ==> Passes(file[f].body, g, file[g], Params(file[f]) + Declared(file[f].body))
  }

  predicate CalledByOther(file: File, g: Name) { exists f :: f in file && f != g && g in CalleesIn(file[f].body) }

  ghost predicate OtherCallsFit(file: File, g: Name)
    requires g in file
  {
    forall f :: f in file && f != g ==> AllFit(Places(file[f].body, Params(file[f])), g, file[g])
  }

  ghost predicate OtherHasSite(file: File, g: Name) {
    exists f :: f in file && f != g && HasSite(Places(file[f].body, Params(file[f])), g)
  }
}
