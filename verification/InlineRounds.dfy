/** The outer loop: one function a round is inlined wherever it is called, and removed. */
module InlineRounds {
  import opened JsLang
  import opened GuardInversion
  import opened Renaming
  import opened CallerFrames
  import opened InlinePlan
  import opened InlineCorrect
  import opened CallSites
  import opened InlineTheorem
  import opened Callees
  import opened Rewriting

  // ---- what the call sites must provide ----

  /** A call with names `scope` bound around it, those added by this round included. */
  predicate CallFine(h: Helper, args: seq<Expr>, reserved: set<Name>, scope: set<Name>) {
    |args| <= |h.params| && Inlinable(h, FullPlan(h, args, reserved).sigma) && TrulyFree(h) !! scope
  }

  predicate Fine(ss: seq<Stmt>, g: Name, h: Helper, reserved: set<Name>, scope: set<Name>)
    decreases ss, 0
  {
    ss == [] ||
    if CallsIt(ss[0], g) then
      && CallFine(h, ss[0].e.args, reserved, scope)
      && Fine(ss[1..], g, h, FullPlan(h, ss[0].e.args, reserved).reserved, scope)
    else FineOne(ss[0], g, h, scope) && Fine(ss[1..], g, h, reserved, scope)
  }

  predicate FineOne(s: Stmt, g: Name, h: Helper, scope: set<Name>)
    decreases s, 2
  {
    match s
    case If(_, thn) => FineBlock(thn, g, h, scope)
    case IfElse(_, thn, els) => FineBlock(thn, g, h, scope) && FineBlock(els, g, h, scope)
    case _ => true
  }

  predicate FineBlock(ss: seq<Stmt>, g: Name, h: Helper, scope: set<Name>)
    decreases ss, 1
  {
    Fine(ss, g, h, Words(ss), scope + Declared(RewrittenBlock(ss, g, h)))
  }

  // ---- machines that run the functions of a file ----

  /** Wherever the statements call `g`, its relational guards meet comparable operands. */
  ghost predicate CallsCompare(m: Machine, g: Name, h: Helper, ss: seq<Stmt>, st: State)
    decreases ss, 0
  {
    ss == [] ||
    (&& CallCompares(m, g, h, ss[0], st)
     && (ExecOne(m, ss[0], st, true).Normal? ==> CallsCompare(m, g, h, ss[1..], ExecOne(m, ss[0], st, true).st)))
  }

  ghost predicate CallCompares(m: Machine, g: Name, h: Helper, s: Stmt, st: State)
    decreases s, 2
  {
    match s
    case ExprS(e) => CallsIt(s, g) ==> ArgumentsCompare(m, h, e.args, st, true)
    case If(c, thn) =>
      var o := Eval(m, c, st, true);
      o.Val? && Truthy(o.v) ==> BlockCompares(m, g, h, thn, o.st)
    case IfElse(c, thn, els) =>
      var o := Eval(m, c, st, true);
      o.Val? ==> BlockCompares(m, g, h, if Truthy(o.v) then thn else els, o.st)
    case _ => true
  }

  ghost predicate BlockCompares(m: Machine, g: Name, h: Helper, ss: seq<Stmt>, st: State)
    decreases ss, 1
  {
    CallsCompare(m, g, h, ss, st.(scopes := Push(st.scopes, Declared(ss))))
  }

  /** Every call of a helper that no relational operator guards compares. */
  lemma {:induction false} UnrelatedCallsCompare(m: Machine, g: Name, h: Helper, ss: seq<Stmt>, st: State)
    requires Unrelated(h)
    ensures CallsCompare(m, g, h, ss, st)
    decreases ss, 0
  {
    if ss != [] {
      UnrelatedCallCompares(m, g, h, ss[0], st);
      UnrelatedCallsCompare(m, g, h, ss[1..], ExecOne(m, ss[0], st, true).st);
    }
  }

  lemma UnrelatedBlockCompares(m: Machine, g: Name, h: Helper, ss: seq<Stmt>, st: State)
    requires Unrelated(h)
    ensures BlockCompares(m, g, h, ss, st)
  {
    UnrelatedCallsCompare(m, g, h, ss, st.(scopes := Push(st.scopes, Declared(ss))));
  }

  predicate Unrelated(h: Helper) {
    forall i :: 0 <= i < |Guards(h.body)| ==> !Relates(Guards(h.body)[i])
  }

  lemma {:induction false} UnrelatedCallCompares(m: Machine, g: Name, h: Helper, s: Stmt, st: State)
    requires Unrelated(h)
    ensures CallCompares(m, g, h, s, st)
    decreases s, 2
  {
    match s
    case ExprS(e) =>
      if CallsIt(s, g) {
        var passed := EvalArgs(m, e.args, st, true);
        if passed.Val? {
          UnrelatedGuardsCompare(m, Guards(h.body), map[], Entered(h, passed.v, passed.st.sh), true);
        }
      }
    case If(c, thn) =>
      var o := Eval(m, c, st, true);
      UnrelatedCallsCompare(m, g, h, thn, o.st.(scopes := Push(o.st.scopes, Declared(thn))));
    case IfElse(c, thn, els) =>
      var o := Eval(m, c, st, true);
      UnrelatedCallsCompare(m, g, h, thn, o.st.(scopes := Push(o.st.scopes, Declared(thn))));
      UnrelatedCallsCompare(m, g, h, els, o.st.(scopes := Push(o.st.scopes, Declared(els))));
    case _ =>
  }

  /** `h` has no early error. Calling `g` runs it, and is not itself traced. */
  ghost predicate Runs(m: Machine, g: Name, h: Helper) {
    LegalHelper(h) && g in m.silent && forall vs, sh :: m.call(g, vs, sh) == RunHelper(m, h, vs, sh)
  }

  lemma SettledAlready(before: Shared, after: Shared)
    requires before.outer.Keys == after.outer.Keys
    ensures Settle(before, after) == after
  {
    assert Settle(before, after).outer == after.outer;
  }

  /** The statement `g(args);` is a call of the helper. */
  lemma CallIsCall(m: Machine, g: Name, h: Helper, args: seq<Expr>, st: State, own: bool)
    requires Runs(m, g, h)
    ensures ExecOne(m, ExprS(Call(g, args)), st, own) == CallHelper(m, h, args, st, own)
  {
    var passed := EvalArgs(m, args, st, own);
    if passed.Val? {
      var reply := RunHelper(m, h, passed.v, passed.st.sh);
      BlockKeepsLayout(m, h.body, State(Base(Bind(h.params, passed.v)), passed.st.sh), true);
      SettledAlready(passed.st.sh, reply.sh);
    }
  }

  // ---- a rewritten caller does what it did ----

  /** A place in a caller: its frame, with the names the round adds. */
  ghost predicate At(words: set<Name>, scope: set<Name>, st: State, pads: seq<Env>) {
    Fitting(st.scopes, pads) && words !! Padding(pads) && Bound(Pad(st.scopes, pads)) <= scope
  }

  /** Running code changes neither the scopes around a place nor what is added there. */
  lemma StillAt(words: set<Name>, scope: set<Name>, st: State, pads: seq<Env>, st': State, pads': seq<Env>)
    requires At(words, scope, st, pads) && SameShape(st.scopes, st'.scopes)
    requires Fitting(st'.scopes, pads') && Padding(pads') == Padding(pads)
    ensures At(words, scope, st', pads')
  {
    BoundPad(st.scopes, pads);
    BoundPad(st'.scopes, pads');
    ShapeBound(st.scopes, st'.scopes);
  }

  lemma {:induction false} RewrittenRuns(m: Machine, g: Name, h: Helper, ss: seq<Stmt>, reserved: set<Name>,
                                         scope: set<Name>, st: State, pads: seq<Env>) returns (left: Env)
    requires Runs(m, g, h) && CallsCompare(m, g, h, ss, st) && Fine(ss, g, h, reserved, scope)
    requires Words(ss) <= reserved && At(Words(ss), scope, st, pads)
    requires Additions(ss, g, h, reserved) <= pads[0].Keys
    requires forall y :: y in Additions(ss, g, h, reserved) ==> pads[0][y] == Uninit
    ensures left.Keys == pads[0].Keys
    ensures SameButAdded(Exec(m, ss, st, true), Exec(m, Rewritten(ss, g, h, reserved), PadState(st, pads), true),
                         [left] + pads[1..])
    decreases ss, 1
  {
    left := pads[0];
    assert [left] + pads[1..] == pads;
    if ss != [] {
      if CallsIt(ss[0], g) {
        left := RewrittenCallRuns(m, g, h, ss, reserved, scope, st, pads);
      } else {
        var rest := Rewritten(ss[1..], g, h, reserved);
        RewrittenOneRuns(m, g, h, ss[0], scope, st, pads);
        assert ([RewrittenOne(ss[0], g, h)] + rest)[1..] == rest;
        var o := ExecOne(m, ss[0], st, true);
        if o.Normal? {
          ExecOneKeepsLayout(m, ss[0], st, true);
          StillAt(Words(ss), scope, st, pads, o.st, pads);
          left := RewrittenRuns(m, g, h, ss[1..], reserved, scope, o.st, pads);
        }
      }
    }
  }

  /** The block that replaces a call does the call, and leaves the names `later` as they are. */
  lemma {:induction false} CallRuns(m: Machine, g: Name, h: Helper, args: seq<Expr>, reserved: set<Name>,
                                    words: set<Name>,
                                    scope: set<Name>, later: set<Name>, st: State, pads: seq<Env>) returns (left: Env)
    requires Runs(m, g, h) && ArgumentsCompare(m, h, args, st, true) && CallFine(h, args, reserved, scope)
    requires ArgNames(args) <= words && At(words, scope, st, pads)
    requires Declared(BlockOf(h, args, reserved)) + later <= pads[0].Keys
             && Declared(BlockOf(h, args, reserved)) !! later
    requires forall y :: y in Declared(BlockOf(h, args, reserved)) + later ==> pads[0][y] == Uninit
    ensures left.Keys == pads[0].Keys && forall y :: y in later ==> left[y] == Uninit
    ensures var o := ExecOne(m, ExprS(Call(g, args)), st, true);
      && SameButAdded(o, Exec(m, BlockOf(h, args, reserved), PadState(st, pads), true), [left] + pads[1..])
      && (o.Normal? ==> At(words, scope, o.st, [left] + pads[1..]))
  {
    InlinedDeclares(h, args, reserved);
    CallIsCall(m, g, h, args, st, true);
    left := BlockDoesTheCall(m, h, args, reserved, st, pads, true, {});
    forall y | y in later ensures left[y] == Uninit {
      var d := Declared(BlockOf(h, args, reserved));
      assert (left - d)[y] == (pads[0] - d)[y];
    }
    var o := ExecOne(m, ExprS(Call(g, args)), st, true);
    if o.Normal? {
      ExecOneKeepsLayout(m, ExprS(Call(g, args)), st, true);
      RefillFits(st.scopes, pads, left);
      StillAt(words, scope, st, pads, o.st, [left] + pads[1..]);
    }
  }

  lemma AtFewer(words: set<Name>, fewer: set<Name>, scope: set<Name>, st: State, pads: seq<Env>)
    requires At(words, scope, st, pads) && fewer <= words
    ensures At(fewer, scope, st, pads)
  {
  }

  /** A call comes first: the rest runs with the names of its block filled in. */
  lemma {:induction false} RewrittenCallRuns(m: Machine, g: Name, h: Helper, ss: seq<Stmt>, reserved: set<Name>,
                                             scope: set<Name>, st: State, pads: seq<Env>) returns (left: Env)
    requires Runs(m, g, h) && CallsCompare(m, g, h, ss, st) && Fine(ss, g, h, reserved, scope)
    requires Words(ss) <= reserved && At(Words(ss), scope, st, pads)
    requires Additions(ss, g, h, reserved) <= pads[0].Keys
    requires forall y :: y in Additions(ss, g, h, reserved) ==> pads[0][y] == Uninit
    requires ss != [] && CallsIt(ss[0], g)
    ensures left.Keys == pads[0].Keys
    ensures SameButAdded(Exec(m, ss, st, true), Exec(m, Rewritten(ss, g, h, reserved), PadState(st, pads), true),
                         [left] + pads[1..])
    decreases ss, 0
  {
    var args := ss[0].e.args;
    var next, block := FullPlan(h, args, reserved).reserved, BlockOf(h, args, reserved);
    InlinedDeclares(h, args, reserved);
    AdditionsAreNew(ss[1..], g, h, next);
    left := CallRuns(m, g, h, args, reserved, Words(ss), scope, Additions(ss[1..], g, h, next), st, pads);
    ExecAppend(m, block, Rewritten(ss[1..], g, h, next), PadState(st, pads), true);
    var o, filled := ExecOne(m, ss[0], st, true), [left] + pads[1..];
    if o.Normal? {
      AtFewer(Words(ss), Words(ss[1..]), scope, o.st, filled);
      left := RewrittenRuns(m, g, h, ss[1..], next, scope, o.st, filled);
      assert filled[1..] == pads[1..];
    }
  }

  lemma {:induction false} RewrittenOneRuns(m: Machine, g: Name, h: Helper, s: Stmt, scope: set<Name>, st: State,
                                            pads: seq<Env>)
    requires Runs(m, g, h) && CallCompares(m, g, h, s, st) && FineOne(s, g, h, scope)
    requires At(WordsOne(s), scope, st, pads)
    ensures SameButAdded(ExecOne(m, s, st, true), ExecOne(m, RewrittenOne(s, g, h), PadState(st, pads), true), pads)
    decreases s, 2
  {
    match s
    case ExprS(e) => EvalPadded(m, e, st, pads, true);
    case Decl(x, e) =>
      EvalPadded(m, e, st, pads, true);
      var o := Eval(m, e, st, true);
      if o.Val? { StorePad(o.st.scopes, pads, x, o.v); }
    case If(c, thn) =>
      EvalPadded(m, c, st, pads, true);
      EvalKeepsLayout(m, c, st, true);
      var o := Eval(m, c, st, true);
      StillAt(Words(thn), scope, st, pads, o.st, pads);
      if o.Val? && Truthy(o.v) { RewrittenBlockRuns(m, g, h, thn, scope, o.st, pads); }
    case IfElse(c, thn, els) =>
      EvalPadded(m, c, st, pads, true);
      EvalKeepsLayout(m, c, st, true);
      var o := Eval(m, c, st, true);
      var branch := if o.Val? && Truthy(o.v) then thn else els;
      StillAt(Words(branch), scope, st, pads, o.st, pads);
      if o.Val? { RewrittenBlockRuns(m, g, h, branch, scope, o.st, pads); }
    case Return =>
  }

  lemma HoistedTogether(s: Scopes, pads: seq<Env>, d: set<Name>, more: set<Name>)
    requires Fitting(s, pads) && d !! more
    ensures var inner := [Hoisted(more)] + pads;
      && Fitting(Push(s, d), inner) && Pad(Push(s, d), inner) == Push(Pad(s, pads), d + more)
      && Padding(inner) == more + Padding(pads)
  {
    var inner := [Hoisted(more)] + pads;
    assert inner[1..] == pads;
    assert Push(s, d).env + Hoisted(more) == Push(Pad(s, pads), d + more).env;
  }

  lemma PopSame(c: Completion, d: Completion, left: Env, pads: seq<Env>)
    requires SameButAdded(c, d, [left] + pads) && c.st.scopes.Inner? && d.st.scopes.Inner?
    ensures SameButAdded(Pop(c), Pop(d), pads)
  {
    assert ([left] + pads)[1..] == pads;
  }

  lemma {:induction false} RewrittenBlockRuns(m: Machine, g: Name, h: Helper, ss: seq<Stmt>, scope: set<Name>,
                                              st: State, pads: seq<Env>)
    requires Runs(m, g, h) && BlockCompares(m, g, h, ss, st) && FineBlock(ss, g, h, scope)
    requires At(Words(ss), scope, st, pads)
    ensures SameButAdded(ExecBlock(m, ss, st, true),
                         ExecBlock(m, RewrittenBlock(ss, g, h), PadState(st, pads), true), pads)
    decreases ss, 2
  {
    var d, more, after := Declared(ss), Additions(ss, g, h, Words(ss)), RewrittenBlock(ss, g, h);
    var inside := scope + Declared(after);
    AdditionsAreNew(ss, g, h, Words(ss));
    DeclaredAreWords(ss);
    HoistedTogether(st.scopes, pads, d, more);
    var st', pads' := st.(scopes := Push(st.scopes, d)), [Hoisted(more)] + pads;
    var left := RewrittenRuns(m, g, h, ss, Words(ss), inside, st', pads');
    assert pads'[1..] == pads;
    ExecKeepsLayout(m, ss, st', true);
    ExecKeepsLayout(m, after, PadState(st', pads'), true);
    PopSame(Exec(m, ss, st', true), Exec(m, after, PadState(st', pads'), true), left, pads);
  }

  // ---- files ----

  type File = map<Name, Helper>

  /** The file is a program, and calling a function of it runs that function. */
  ghost predicate Implements(m: Machine, file: File) {
    forall f :: f in file ==> Runs(m, f, file[f])
  }

  /** `g` is inlined into every other function, and goes. */
  function Round(file: File, g: Name): File
    requires g in file
  {
    map f | f in file && f != g :: RewrittenHelper(file[f], g, file[g])
  }

  /** A function as it is called. */
  function StartOf(f: Helper, vs: seq<Value>, sh: Shared): State { State(Base(Bind(f.params, vs)), sh) }

  /** The analysis accepts `g`: it does not call itself, and nothing calls it but statements. The calls can be
      inlined where they are, and relational guards meet comparable operands in them. */
  ghost predicate RoundFine(m: Machine, file: File, g: Name)
    requires g in file
  {
    && Tail(file[g].body) != [] && ReturnFree(Tail(file[g].body)) && g !in CalleesIn(file[g].body)
    && (forall f :: f in file && f != g ==> NoOtherCall(file[f].body, g, g))
    && (forall f :: f in file && f != g ==> FineBlock(file[f].body, g, file[g], Params(file[f])))
    && forall f, vs, sh :: f in file && f != g ==>
         BlockCompares(m, g, file[g], file[f].body, StartOf(file[f], vs, sh))
  }

  /** A function with the calls of `g` replaced replies as it did to every call of it in which the guards of `g`
      meet comparable operands. */
  lemma RewrittenReplies(m: Machine, g: Name, h: Helper, f: Helper, vs: seq<Value>, sh: Shared)
    requires Runs(m, g, h) && FineBlock(f.body, g, h, Params(f))
    requires BlockCompares(m, g, h, f.body, StartOf(f, vs, sh))
    ensures RunHelper(m, RewrittenHelper(f, g, h), vs, sh) == RunHelper(m, f, vs, sh)
  {
    var st := StartOf(f, vs, sh);
    var pads: seq<Env> := [map[]];
    BindKeys(f.params, vs);
    assert pads[1..] == [] && st.scopes.env + map[] == st.scopes.env;
    assert Padding(pads) == {} && PadState(st, pads) == st;
    RewrittenBlockRuns(m, g, h, f.body, Params(f), st, pads);
  }

  /** One round keeps what every remaining function does, if and only if it adds no name that is a parameter of the
      function it is added to: just then a machine that runs the functions of the file runs those of the file
      after the round. No function calls `g` any more, nor anything that none called before. */
  lemma RoundKeepsMeaning(m: Machine, file: File, g: Name)
    requires Implements(m, file) && g in file && RoundFine(m, file, g)
    ensures Implements(m, Round(file, g)) <==> RoundKeepsParams(file, g)
    ensures NoneCalls(Round(file, g), g)
    ensures forall z :: NoneCalls(file, z) ==> NoneCalls(Round(file, g), z)
  {
    NoneIsLeft(file, g);
    forall z | NoneCalls(file, z) ensures NoneCalls(Round(file, g), z) { NoneIsNew(file, g, z); }
    forall f | f in Round(file, g) ensures Runs(m, f, Round(file, g)[f]) <==> KeepsParams(file[f], g, file[g]) {
      assert Runs(m, f, file[f]);
      RewrittenIsLegalIff(file[f], g, file[g]);
      forall vs, sh ensures m.call(f, vs, sh) == RunHelper(m, Round(file, g)[f], vs, sh) {
        RewrittenReplies(m, g, file[g], file[f], vs, sh);
      }
    }
  }

  predicate NoneCalls(file: File, z: Name) {
    forall f :: f in file ==> z !in CalleesIn(file[f].body)
  }

  lemma NoneIsLeft(file: File, g: Name)
    requires g in file && Readable(file[g]) && g !in CalleesIn(file[g].body)
    requires forall f :: f in file && f != g ==> NoOtherCall(file[f].body, g, g)
    ensures NoneCalls(Round(file, g), g)
  {
    forall f | f in Round(file, g) ensures g !in CalleesIn(Round(file, g)[f].body) {
      CallsLeft(file[f].body, g, file[g], Words(file[f].body), g);
    }
  }

  lemma NoneIsNew(file: File, g: Name, z: Name)
    requires g in file && Readable(file[g]) && NoneCalls(file, z)
    ensures NoneCalls(Round(file, g), z)
  {
    forall f | f in Round(file, g) ensures z !in CalleesIn(Round(file, g)[f].body) {
      NoCallAtAll(file[f].body, g, z);
      CallsLeft(file[f].body, g, file[g], Words(file[f].body), z);
    }
  }

  /** What has become of functions that are gone and not called does not matter. */
  lemma GoneFunctions(m: Machine, n: Machine, file: File, gone: set<Name>)
    requires Implements(m, file) && gone !! file.Keys && forall z :: z in gone ==> NoneCalls(file, z)
    requires n == m.(call := n.call) && forall f, vs, sh :: f !in gone ==> m.call(f, vs, sh) == n.call(f, vs, sh)
    ensures Implements(n, file)
  {
    forall f | f in file ensures Runs(n, f, file[f]) {
      assert Runs(m, f, file[f]);
      forall z | z in CalleesIn(file[f].body) ensures z !in gone {}
      forall vs, sh ensures n.call(f, vs, sh) == RunHelper(n, file[f], vs, sh) {
        HelperAgrees(m, n, file[f], vs, sh);
      }
    }
  }

  predicate RoundKeepsParams(file: File, g: Name)
    requires g in file
  {
    forall f :: f in file && f != g ==> KeepsParams(file[f], g, file[g])
  }

  // ---- runs of rounds ----

  /** The file after the named functions were inlined, in order. */
  function After(file: File, names: seq<Name>): File {
    if names == [] then file
    else
      var before, last := After(file, names[..|names| - 1]), names[|names| - 1];
      if last in before then Round(before, last) else before
  }

  /** Every round of the run finds call sites it can treat, and declares no parameter again. */
  ghost predicate RoundsFine(m: Machine, file: File, names: seq<Name>) {
    forall k :: 0 <= k < |names| ==>
      var before := After(file, names[..k]);
      names[k] in before ==> RoundFine(m, before, names[k]) && RoundKeepsParams(before, names[k])
  }

  /** The functions that the rounds removed. */
  function Gone(file: File, names: seq<Name>): set<Name> { file.Keys - After(file, names).Keys }

  /** A run of rounds keeps what every function does that is left at the end, and none of these calls a function
      that is gone. */
  lemma {:induction false} RoundsKeepMeaning(m: Machine, file: File, names: seq<Name>)
    requires Implements(m, file) && RoundsFine(m, file, names)
    ensures Implements(m, After(file, names))
    ensures After(file, names).Keys <= file.Keys
    ensures forall z :: z in Gone(file, names) ==> NoneCalls(After(file, names), z)
  {
    if names != [] {
      var init, last := names[..|names| - 1], names[|names| - 1];
      forall k | 0 <= k < |init| ensures init[..k] == names[..k] && init[k] == names[k] {}
      RoundsKeepMeaning(m, file, init);
      if last in After(file, init) { RoundKeepsMeaning(m, After(file, init), last); }
    }
  }

  /** So the functions left do what they did on every machine, whatever it makes of the names that are gone. */
  lemma RoundsNeedNoneGone(m: Machine, n: Machine, file: File, names: seq<Name>)
    requires Implements(m, file) && RoundsFine(m, file, names)
    requires n == m.(call := n.call)
    requires forall f, vs, sh :: f !in Gone(file, names) ==> m.call(f, vs, sh) == n.call(f, vs, sh)
    ensures Implements(n, After(file, names))
  {
    RoundsKeepMeaning(m, file, names);
    GoneFunctions(m, n, After(file, names), Gone(file, names));
  }
}
