/** Which files and names explicit exports make public, found by a worklist. */
module ExportClosure {
  import opened Basics

  datatype Reexport = Reexport(name: string, spec: string)

  datatype FileInfo = FileInfo(exportStar: seq<string>, namedReexports: seq<Reexport>)

  /** One key of an exports map; `target` is its `.ts`-or-other string value, if it has one. */
  datatype Entry = Entry(key: string, target: Option<string>)

  /** The scanned files, and path arithmetic: what a specifier in a file denotes, and an index file. */
  datatype Repo = Repo(files: map<string, FileInfo>, base: (string, string) -> string, index: string -> string,
                       inPackage: (string, string) -> string)

  /** A specifier denotes the scanned file of that very path; failing that, the one with `.ts` added; failing
      both, the index file of that directory. */
  predicate Denotes(repo: Repo, rel: string, spec: string, target: string) {
    var base := repo.base(rel, spec);
    target in repo.files &&
    (|| target == base
     || (target == base + ".ts" && base !in repo.files)
     || (target == repo.index(base) && base !in repo.files && base + ".ts" !in repo.files))
  }

  function Resolve(repo: Repo, rel: string, spec: string): (r: Option<string>)
    ensures forall target :: r == Some(target) <==> Denotes(repo, rel, spec, target)
  {
    var base := repo.base(rel, spec);
    if base in repo.files then Some(base)
    else if base + ".ts" in repo.files then Some(base + ".ts")
    else if repo.index(base) in repo.files then Some(repo.index(base))
    else None
  }

  /** The key of the entry holds no `*`, and its target is a scanned file, written with the ending `.ts`. */
  ghost predicate Exposes(repo: Repo, pkg: string, entry: Entry, rel: string) {
    && (forall i :: 0 <= i < |entry.key| ==> entry.key[i] != '*')
    && (exists stem :: entry.target == Some(stem + ".ts") && rel == repo.inPackage(pkg, stem + ".ts"))
    && rel in repo.files
  }

  predicate EndsWith(s: string, tail: string) {
    |tail| <= |s| && s[|s| - |tail|..] == tail
  }

  lemma EndsWithIff(s: string, tail: string)
    ensures EndsWith(s, tail) <==> exists stem :: s == stem + tail
  {
    if EndsWith(s, tail) { assert s == s[..|s| - |tail|] + tail; }
  }

  /** The file an entry makes public, if it is an explicit entry for a scanned file. */
  function Root(repo: Repo, pkg: string, entry: Entry): Option<string> {
    if '*' in entry.key || entry.target.None? || !EndsWith(entry.target.value, ".ts") then None
    else
      var rel := repo.inPackage(pkg, entry.target.value);
      if rel in repo.files then Some(rel) else None
  }

  lemma RootIff(repo: Repo, pkg: string, entry: Entry, rel: string)
    ensures Root(repo, pkg, entry) == Some(rel) <==> Exposes(repo, pkg, entry, rel)
  {
    if entry.target.Some? { EndsWithIff(entry.target.value, ".ts"); }
  }

  type Package = (string, seq<Entry>)

  ghost predicate IsRoot(repo: Repo, pkgs: seq<Package>, rel: string) {
    exists p, e :: p in pkgs && e in p.1 && Exposes(repo, p.0, e, rel)
  }

  /** `rel` says `export * from` a specifier that denotes `target`. */
  predicate Stars(repo: Repo, rel: string, target: string) {
    rel in repo.files && exists spec :: spec in repo.files[rel].exportStar && Denotes(repo, rel, spec, target)
  }

  ghost predicate StarPath(repo: Repo, pkgs: seq<Package>, path: seq<string>) {
    && path != [] && IsRoot(repo, pkgs, path[0])
    && forall i :: 0 < i < |path| ==> Stars(repo, path[i - 1], path[i])
  }

  /** Public as a whole: an explicit entry, or reached from one through `export *`. */
  ghost predicate Public(repo: Repo, pkgs: seq<Package>, rel: string) {
    exists path :: StarPath(repo, pkgs, path) && path[|path| - 1] == rel
  }

  predicate Names(repo: Repo, rel: string, target: string, name: string) {
    && rel in repo.files
    && exists re :: re in repo.files[rel].namedReexports && re.name == name
                    && Denotes(repo, rel, re.spec, target)
  }

  predicate NameIn(names: map<string, set<string>>, target: string, name: string) {
    target in names && name in names[target]
  }

  lemma RootIsPublic(repo: Repo, pkgs: seq<Package>, rel: string)
    requires IsRoot(repo, pkgs, rel)
    ensures Public(repo, pkgs, rel)
  {
    assert StarPath(repo, pkgs, [rel]);
  }

  lemma StarIsPublic(repo: Repo, pkgs: seq<Package>, rel: string, target: string)
    requires Public(repo, pkgs, rel) && Stars(repo, rel, target)
    ensures Public(repo, pkgs, target)
  {
    var path :| StarPath(repo, pkgs, path) && path[|path| - 1] == rel;
    assert StarPath(repo, pkgs, path + [target]);
  }

  /** Nothing on a path from a root escapes a set that holds the roots and is closed under `export *`. */
  lemma {:induction false} PathStaysInside(repo: Repo, pkgs: seq<Package>, inside: set<string>, path: seq<string>)
    requires StarPath(repo, pkgs, path)
    requires forall r :: IsRoot(repo, pkgs, r) ==> r in inside
    requires forall r, t :: r in inside && Stars(repo, r, t) ==> t in inside
    ensures path[|path| - 1] in inside
  {
    if |path| > 1 {
      PathStaysInside(repo, pkgs, inside, path[..|path| - 1]);
      assert Stars(repo, path[|path| - 2], path[|path| - 1]);
    }
  }

  // ---- the worklist ----

  /** Every file taken so far has its `export *` targets taken or waiting. */
  predicate Closing(repo: Repo, taken: set<string>, queue: seq<string>) {
    forall r, spec :: r in taken && r in repo.files && spec in repo.files[r].exportStar ==>
      Waiting(taken, queue, Resolve(repo, r, spec))
  }

  predicate Waiting(taken: set<string>, queue: seq<string>, target: Option<string>) {
    target.Some? ==> target.value in taken || target.value in queue
  }

  /** The names are those that the files taken re-export, no fewer and no more. */
  ghost predicate Exact(repo: Repo, taken: set<string>, names: map<string, set<string>>) {
    forall t, n :: NameIn(names, t, n) <==> exists r :: r in taken && Names(repo, r, t, n)
  }

  /** What holds of the whole search between two turns of the worklist. */
  ghost predicate Searching(repo: Repo, pkgs: seq<Package>, taken: set<string>, queue: seq<string>,
                            names: map<string, set<string>>) {
    && taken <= repo.files.Keys && (forall r :: r in queue ==> r in repo.files)
    && (forall r :: r in taken || r in queue ==> Public(repo, pkgs, r))
    && Closing(repo, taken, queue)
    && Exact(repo, taken, names)
  }

  method StarTargets(repo: Repo, rel: string) returns (targets: seq<string>)
    requires rel in repo.files
    ensures forall t :: t in targets <==> Stars(repo, rel, t)
  {
    targets := [];
    var specs := repo.files[rel].exportStar;
    for i := 0 to |specs|
      invariant forall t :: t in targets <==> exists j :: 0 <= j < i && Resolve(repo, rel, specs[j]) == Some(t)
    {
      var target := Resolve(repo, rel, specs[i]);
      if target.Some? { targets := targets + [target.value]; }
    }
  }

  predicate NamedBefore(repo: Repo, rel: string, i: int, t: string, n: string)
    requires rel in repo.files && i <= |repo.files[rel].namedReexports|
  {
    var res := repo.files[rel].namedReexports;
    exists j :: 0 <= j < i && res[j].name == n && Resolve(repo, rel, res[j].spec) == Some(t)
  }

  method AddNames(repo: Repo, rel: string, names: map<string, set<string>>) returns (more: map<string, set<string>>)
    requires rel in repo.files
    ensures forall t, n :: NameIn(more, t, n) <==> NameIn(names, t, n) || Names(repo, rel, t, n)
  {
    more := names;
    var res := repo.files[rel].namedReexports;
    for i := 0 to |res|
      invariant forall t, n :: NameIn(more, t, n) <==> NameIn(names, t, n) || NamedBefore(repo, rel, i, t, n)
    {
      var target := Resolve(repo, rel, res[i].spec);
      ghost var before := more;
      if target.Some? {
        var t := target.value;
        if t !in more { more := more[t := {}]; }
        more := more[t := more[t] + {res[i].name}];
      }
      forall t, n ensures NameIn(more, t, n) <==> NameIn(names, t, n) || NamedBefore(repo, rel, i + 1, t, n) {
        assert NameIn(before, t, n) <==> NameIn(names, t, n) || NamedBefore(repo, rel, i, t, n);
        assert NamedBefore(repo, rel, i + 1, t, n) <==>
               NamedBefore(repo, rel, i, t, n) || (target == Some(t) && res[i].name == n);
      }
    }
  }

  lemma Taking(repo: Repo, pkgs: seq<Package>, taken: set<string>, queue: seq<string>, names: map<string, set<string>>,
               rel: string, targets: seq<string>, more: map<string, set<string>>)
    requires Searching(repo, pkgs, taken, queue + [rel], names) && rel !in taken
    requires forall t :: t in targets <==> Stars(repo, rel, t)
    requires forall t, n :: NameIn(more, t, n) <==> NameIn(names, t, n) || Names(repo, rel, t, n)
    ensures Searching(repo, pkgs, taken + {rel}, queue + targets, more)
  {
    assert rel in queue + [rel];
    forall t | t in targets ensures Public(repo, pkgs, t) && t in repo.files {
      StarIsPublic(repo, pkgs, rel, t);
    }
    forall r, spec | r in taken + {rel} && r in repo.files && spec in repo.files[r].exportStar
      ensures Waiting(taken + {rel}, queue + targets, Resolve(repo, r, spec))
    {
      if r == rel {
        var t := Resolve(repo, r, spec);
        if t.Some? { assert Stars(repo, rel, t.value); }
      } else {
        assert Waiting(taken, queue + [rel], Resolve(repo, r, spec));
      }
    }
  }

  lemma Dropping(repo: Repo, pkgs: seq<Package>, taken: set<string>, queue: seq<string>,
                 names: map<string, set<string>>, rel: string)
    requires Searching(repo, pkgs, taken, queue + [rel], names) && rel in taken
    ensures Searching(repo, pkgs, taken, queue, names)
  {
    forall r, spec | r in taken && r in repo.files && spec in repo.files[r].exportStar
      ensures Waiting(taken, queue, Resolve(repo, r, spec))
    {
      assert Waiting(taken, queue + [rel], Resolve(repo, r, spec));
    }
  }

  /** Every file of `start` is taken or waits. */
  predicate Listed(start: seq<string>, taken: set<string>, queue: seq<string>) {
    forall r :: r in start ==> r in taken || r in queue
  }

  /** One file off the end of the worklist. */
  method TakeFile(repo: Repo, ghost pkgs: seq<Package>, ghost start: seq<string>, taken0: set<string>,
                  queue0: seq<string>, names0: map<string, set<string>>)
    returns (taken: set<string>, queue: seq<string>, names: map<string, set<string>>)
    requires queue0 != [] && Searching(repo, pkgs, taken0, queue0, names0) && Listed(start, taken0, queue0)
    ensures Searching(repo, pkgs, taken, queue, names) && Listed(start, taken, queue) && taken0 <= taken
    ensures if taken == taken0 then |queue| < |queue0| else |repo.files.Keys - taken| < |repo.files.Keys - taken0|
  {
    var rel, rest := queue0[|queue0| - 1], queue0[..|queue0| - 1];
    assert queue0 == rest + [rel];
    if rel in taken0 {
      Dropping(repo, pkgs, taken0, rest, names0, rel);
      return taken0, rest, names0;
    }
    var targets := StarTargets(repo, rel);
    names := AddNames(repo, rel, names0);
    Taking(repo, pkgs, taken0, rest, names0, rel, targets, names);
    Shrinks(repo.files.Keys, taken0, rel);
    taken, queue := taken0 + {rel}, rest + targets;
  }

  method Drain(repo: Repo, ghost pkgs: seq<Package>, start: seq<string>, before: set<string>,
               names0: map<string, set<string>>)
    returns (taken: set<string>, names: map<string, set<string>>)
    requires Searching(repo, pkgs, before, start, names0)
    ensures Searching(repo, pkgs, taken, [], names)
    ensures before <= taken && Listed(start, taken, [])
  {
    taken, names := before, names0;
    var queue := start;
    while queue != []
      invariant Searching(repo, pkgs, taken, queue, names) && before <= taken && Listed(start, taken, queue)
      decreases |repo.files.Keys - taken|, |queue|
    {
      taken, queue, names := TakeFile(repo, pkgs, start, taken, queue, names);
    }
  }

  lemma Shrinks(all: set<string>, taken: set<string>, rel: string)
    requires rel in all && rel !in taken
    ensures |all - (taken + {rel})| < |all - taken|
  {
    assert all - taken == (all - (taken + {rel})) + {rel};
  }

  method Roots(repo: Repo, pkg: Package) returns (queue: seq<string>)
    ensures forall r :: r in queue <==> exists e :: e in pkg.1 && Exposes(repo, pkg.0, e, r)
  {
    queue := [];
    for i := 0 to |pkg.1|
      invariant forall r :: r in queue <==> exists j :: 0 <= j < i && Exposes(repo, pkg.0, pkg.1[j], r)
    {
      var root := Root(repo, pkg.0, pkg.1[i]);
      forall r ensures root == Some(r) <==> Exposes(repo, pkg.0, pkg.1[i], r) { RootIff(repo, pkg.0, pkg.1[i], r); }
      if root.Some? { queue := queue + [root.value]; }
    }
  }

  ghost predicate RootsTaken(repo: Repo, pkg: Package, taken: set<string>) {
    forall e, r :: e in pkg.1 && Exposes(repo, pkg.0, e, r) ==> r in taken
  }

  method SearchPackage(repo: Repo, ghost pkgs: seq<Package>, pkg: Package, before: set<string>,
                       names0: map<string, set<string>>)
    returns (taken: set<string>, names: map<string, set<string>>)
    requires pkg in pkgs && Searching(repo, pkgs, before, [], names0)
    ensures Searching(repo, pkgs, taken, [], names) && before <= taken && RootsTaken(repo, pkg, taken)
  {
    var queue := Roots(repo, pkg);
    forall r | r in queue ensures Public(repo, pkgs, r) && r in repo.files { RootIsPublic(repo, pkgs, r); }
    Enqueueing(repo, pkgs, before, queue, names0);
    taken, names := Drain(repo, pkgs, queue, before, names0);
  }

  /** The public files are exactly those reachable from the roots; the public names, those they re-export. */
  method ComputePublicSurface(repo: Repo, pkgs: seq<Package>)
    returns (barrelFiles: set<string>, barrelNames: map<string, set<string>>)
    ensures forall r :: r in barrelFiles <==> Public(repo, pkgs, r)
    ensures forall t, n :: NameIn(barrelNames, t, n) <==> exists r :: Public(repo, pkgs, r) && Names(repo, r, t, n)
  {
    barrelFiles, barrelNames := {}, map[];
    for k := 0 to |pkgs|
      invariant Searching(repo, pkgs, barrelFiles, [], barrelNames)
      invariant forall j :: 0 <= j < k ==> RootsTaken(repo, pkgs[j], barrelFiles)
    {
      ghost var before := barrelFiles;
      barrelFiles, barrelNames := SearchPackage(repo, pkgs, pkgs[k], barrelFiles, barrelNames);
      forall j | 0 <= j < k ensures RootsTaken(repo, pkgs[j], barrelFiles) { assert RootsTaken(repo, pkgs[j], before); }
    }
    AllRoots(repo, pkgs, barrelFiles);
    Complete(repo, pkgs, barrelFiles, barrelNames);
  }

  lemma AllRoots(repo: Repo, pkgs: seq<Package>, taken: set<string>)
    requires forall j :: 0 <= j < |pkgs| ==> RootsTaken(repo, pkgs[j], taken)
    ensures forall r :: IsRoot(repo, pkgs, r) ==> r in taken
  {
    forall r | IsRoot(repo, pkgs, r) ensures r in taken {
      var p, e :| p in pkgs && e in p.1 && Exposes(repo, p.0, e, r);
      var j :| 0 <= j < |pkgs| && pkgs[j] == p;
      assert RootsTaken(repo, pkgs[j], taken);
    }
  }

  lemma Enqueueing(repo: Repo, pkgs: seq<Package>, taken: set<string>, queue: seq<string>,
                   names: map<string, set<string>>)
    requires Searching(repo, pkgs, taken, [], names)
    requires forall r :: r in queue ==> Public(repo, pkgs, r) && r in repo.files
    ensures Searching(repo, pkgs, taken, queue, names)
  {
    forall r, spec | r in taken && r in repo.files && spec in repo.files[r].exportStar
      ensures Waiting(taken, queue, Resolve(repo, r, spec))
    {
      assert Waiting(taken, [], Resolve(repo, r, spec));
    }
  }

  /** An empty queue means the search has everything. */
  lemma Complete(repo: Repo, pkgs: seq<Package>, taken: set<string>, names: map<string, set<string>>)
    requires Searching(repo, pkgs, taken, [], names)
    requires forall r :: IsRoot(repo, pkgs, r) ==> r in taken
    ensures forall r :: r in taken <==> Public(repo, pkgs, r)
    ensures forall t, n :: NameIn(names, t, n) <==> exists r :: Public(repo, pkgs, r) && Names(repo, r, t, n)
  {
    forall r, t | r in taken && Stars(repo, r, t) ensures t in taken {
      var spec :| spec in repo.files[r].exportStar && Resolve(repo, r, spec) == Some(t);
      assert Waiting(taken, [], Resolve(repo, r, spec));
    }
    forall r ensures r in taken <==> Public(repo, pkgs, r) {
      if Public(repo, pkgs, r) {
        var path :| StarPath(repo, pkgs, path) && path[|path| - 1] == r;
        PathStaysInside(repo, pkgs, taken, path);
      }
    }
  }
}
