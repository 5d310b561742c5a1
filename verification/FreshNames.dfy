/** Picking an identifier that a block does not use yet. */
module FreshNames {
  import opened JsLang

  function Decimal(n: nat): string {
    if n < 10 then ['0' + n as char] else Decimal(n / 10) + ['0' + (n % 10) as char]
  }

  function DecimalValue(s: string): int {
    if s == [] then 0 else DecimalValue(s[..|s| - 1]) * 10 + (s[|s| - 1] as int - '0' as int)
  }

  lemma {:induction false} DecimalRoundTrip(n: nat)
    ensures DecimalValue(Decimal(n)) == n
  {
    if n >= 10 {
      DecimalRoundTrip(n / 10);
      var s := Decimal(n);
      assert s[..|s| - 1] == Decimal(n / 10);
    } else {
      assert Decimal(n)[..0] == [];
    }
  }

  function Candidate(base: Name, i: nat): Name { base + "_" + Decimal(i) }

  lemma CandidatesDiffer(base: Name, i: nat, j: nat)
    requires i != j
    ensures Candidate(base, i) != Candidate(base, j)
  {
    DecimalRoundTrip(i);
    DecimalRoundTrip(j);
    assert Candidate(base, i)[|base| + 1..] == Decimal(i);
    assert Candidate(base, j)[|base| + 1..] == Decimal(j);
  }

  /** The names of `taken` that the search from `i` on can still run into. */
  ghost function Ahead(base: Name, taken: set<Name>, i: nat): set<Name> {
    set x | x in taken && forall j: nat :: j < i ==> x != Candidate(base, j)
  }

  lemma AheadShrinks(base: Name, taken: set<Name>, i: nat)
    requires Candidate(base, i) in taken
    ensures |Ahead(base, taken, i + 1)| < |Ahead(base, taken, i)|
  {
    var c := Candidate(base, i);
    forall j: nat | j < i ensures c != Candidate(base, j) { CandidatesDiffer(base, i, j); }
    assert Ahead(base, taken, i + 1) <= Ahead(base, taken, i) - {c};
    Smaller(Ahead(base, taken, i + 1), Ahead(base, taken, i), c);
  }

  lemma Smaller<T>(a: set<T>, b: set<T>, x: T)
    requires x in b && a <= b - {x}
    ensures |a| < |b|
  {
    Contained(a, b - {x});
  }

  lemma {:induction false} Contained<T>(a: set<T>, b: set<T>)
    requires a <= b
    ensures |a| <= |b|
  {
    if x :| x in a { Contained(a - {x}, b - {x}); }
  }

  predicate FirstFree(base: Name, taken: set<Name>, i: nat, k: nat) {
    i <= k && Candidate(base, k) !in taken && forall j: nat :: i <= j < k ==> Candidate(base, j) in taken
  }

  function FreshFrom(base: Name, taken: set<Name>, i: nat): (r: Name)
    ensures r !in taken
    ensures exists k: nat :: FirstFree(base, taken, i, k) && r == Candidate(base, k)
    decreases |Ahead(base, taken, i)|
  {
    var c := Candidate(base, i);
    if c !in taken then
      assert FirstFree(base, taken, i, i);
      c
    else
      AheadShrinks(base, taken, i);
      var r := FreshFrom(base, taken, i + 1);
      assert exists k: nat :: FirstFree(base, taken, i, k) && r == Candidate(base, k) by {
        var k: nat :| FirstFree(base, taken, i + 1, k) && r == Candidate(base, k);
        assert FirstFree(base, taken, i, k);
      }
      r
  }

  function Fresh(base: Name, taken: set<Name>): (r: Name)
    ensures r !in taken
    ensures base !in taken ==> r == base
    ensures base in taken ==> exists k: nat :: FirstFree(base, taken, 2, k) && r == Candidate(base, k)
  {
    if base !in taken then base else FreshFrom(base, taken, 2)
  }

  /** The search stops on every finite set, on the first numbered name that is free. */
  method FreshName(base: Name, taken: set<Name>) returns (r: Name)
    ensures r == Fresh(base, taken)
  {
    if base !in taken { return base; }
    var i := 2;
    r := Candidate(base, i);
    while r in taken
      invariant i >= 2 && r == Candidate(base, i)
      invariant FreshFrom(base, taken, i) == Fresh(base, taken)
      decreases |Ahead(base, taken, i)|
    {
      AheadShrinks(base, taken, i);
      i := i + 1;
      r := Candidate(base, i);
    }
  }
}
