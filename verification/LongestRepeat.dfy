/** The longest repeated run of lines inside one payload block. */
module LongestRepeat {
  import opened Basics
  import opened PythonText

  /** Two characters that are no white space stand three or more places apart. */
  predicate Meaningful(line: string) {
    exists i, j :: 0 <= i < |line| && 0 <= j < |line| && !IsSpace(line[i]) && !IsSpace(line[j]) && j - i >= 3
  }

  /** The line has four characters or more once surrounding white space is stripped. */
  method IsMeaningful(line: string) returns (long: bool)
    ensures long == Meaningful(line)
  {
    var lo, hi := 0, |line|;
    while lo < hi && IsSpace(line[lo])
      invariant 0 <= lo <= hi && forall i :: 0 <= i < lo ==> IsSpace(line[i])
    {
      lo := lo + 1;
    }
    while lo < hi && IsSpace(line[hi - 1])
      invariant lo <= hi <= |line| && forall i :: hi <= i < |line| ==> IsSpace(line[i])
      invariant lo < hi ==> !IsSpace(line[lo])
    {
      hi := hi - 1;
    }
    long := hi - lo >= 4;
    if long { assert !IsSpace(line[lo]) && !IsSpace(line[hi - 1]); }
  }

  function CountMeaningful(lines: seq<string>): nat {
    if lines == [] then 0
    else CountMeaningful(lines[..|lines| - 1]) + if Meaningful(lines[|lines| - 1]) then 1 else 0
  }

  /** The `t`-th lines from `i` and from `j` are the same. */
  predicate Same(block: seq<string>, i: nat, j: nat, t: nat) {
    i + t < |block| && j + t < |block| && block[i + t] == block[j + t]
  }

  /** `k` lines from `i` recur at `j` without overlap, and neither side can be extended by one more. */
  predicate Extent(block: seq<string>, i: nat, j: nat, k: nat) {
    && i + k <= j && j + k <= |block| && (forall t: nat :: t < k ==> Same(block, i, j, t))
    && (i + k == j || j + k == |block| || !Same(block, i, j, k))
  }

  /** A repeat that counts: long enough, and at least half of it, and two lines, meaningful. */
  predicate Repeat(block: seq<string>, minLen: nat, i: nat, j: nat, k: nat) {
    && Extent(block, i, j, k) && k >= minLen && i + minLen <= j
    && CountMeaningful(block[i..i + k]) >= 2 && CountMeaningful(block[i..i + k]) * 2 >= k
  }

  lemma ExtentUnique(block: seq<string>, i: nat, j: nat, k: nat, l: nat)
    requires Extent(block, i, j, k) && Extent(block, i, j, l)
    ensures k == l
  {
  }

  predicate Before(i: nat, j: nat, p: nat, q: nat) { i < p || (i == p && j < q) }

  /** The answer when the pairs before `(p, q)` have been looked at: the first longest repeat among them. */
  ghost predicate BestBefore(block: seq<string>, minLen: nat, p: nat, q: nat, best: Option<(nat, nat)>) {
    if best.None? then forall i: nat, j: nat, k: nat :: Before(i, j, p, q) ==> !Repeat(block, minLen, i, j, k)
    else exists j: nat :: Before(best.value.0, j, p, q)
                          && FirstLongest(block, minLen, p, q, best.value.0, j, best.value.1)
  }

  ghost predicate FirstLongest(block: seq<string>, minLen: nat, p: nat, q: nat, i: nat, j: nat, k: nat) {
    && Repeat(block, minLen, i, j, k)
    && forall x: nat, y: nat, l: nat :: Before(x, y, p, q) && Repeat(block, minLen, x, y, l) ==>
         l <= k && (Before(x, y, i, j) ==> l < k)
  }

  /** The whole answer: the first longest of all repeats, or none if there is none. */
  ghost predicate Answer(block: seq<string>, minLen: nat, best: Option<(nat, nat)>) {
    if best.None? then forall i: nat, j: nat, k: nat :: !Repeat(block, minLen, i, j, k)
    else exists j: nat :: && Repeat(block, minLen, best.value.0, j, best.value.1)
                          && forall x: nat, y: nat, l: nat :: Repeat(block, minLen, x, y, l) ==>
                               l <= best.value.1 && (Before(x, y, best.value.0, j) ==> l < best.value.1)
  }

  method Extend(block: seq<string>, i: nat, j: nat) returns (k: nat)
    requires i <= j <= |block|
    ensures Extent(block, i, j, k)
  {
    k := 0;
    while i + k < j && j + k < |block| && block[i + k] == block[j + k]
      invariant i + k <= j && j + k <= |block|
      invariant forall t: nat :: t < k ==> Same(block, i, j, t)
    {
      k := k + 1;
    }
  }

  method SumMeaningful(lines: seq<string>) returns (n: nat)
    ensures n == CountMeaningful(lines)
  {
    n := 0;
    for i := 0 to |lines|
      invariant n == CountMeaningful(lines[..i])
    {
      assert lines[..i + 1][..i] == lines[..i];
      var long := IsMeaningful(lines[i]);
      if long { n := n + 1; }
    }
    assert lines[..|lines|] == lines;
  }

  method TryPair(block: seq<string>, minLen: nat, i: nat, j: nat, best: Option<(nat, nat)>)
    returns (better: Option<(nat, nat)>)
    requires i + minLen <= j <= |block| && BestBefore(block, minLen, i, j, best)
    ensures BestBefore(block, minLen, i, j + 1, better)
  {
    better := best;
    var k := Extend(block, i, j);
    forall l: nat | Repeat(block, minLen, i, j, l) ensures l == k { ExtentUnique(block, i, j, l, k); }
    if k >= minLen {
      var meaningful := SumMeaningful(block[i..i + k]);
      if meaningful >= Max((k + 1) / 2, 2) && (best.None? || k > best.value.1) {
        better := Some((i, k));
        TakesOver(block, minLen, i, j, k, best);
      }
    }
    if better == best { StaysBest(block, minLen, i, j, best); }
  }

  lemma TakesOver(block: seq<string>, minLen: nat, i: nat, j: nat, k: nat, best: Option<(nat, nat)>)
    requires BestBefore(block, minLen, i, j, best) && Repeat(block, minLen, i, j, k)
    requires best.None? || k > best.value.1
    ensures BestBefore(block, minLen, i, j + 1, Some((i, k)))
  {
    forall x: nat, y: nat, l: nat | Before(x, y, i, j + 1) && Repeat(block, minLen, x, y, l)
      ensures l <= k && (Before(x, y, i, j) ==> l < k)
    {
      if Before(x, y, i, j) {
        if best.Some? {
          var q: nat :| FirstLongest(block, minLen, i, j, best.value.0, q, best.value.1);
        }
      } else {
        ExtentUnique(block, i, j, k, l);
      }
    }
    assert Before(i, j, i, j + 1) && FirstLongest(block, minLen, i, j + 1, i, j, k);
  }

  lemma StaysBest(block: seq<string>, minLen: nat, i: nat, j: nat, best: Option<(nat, nat)>)
    requires BestBefore(block, minLen, i, j, best)
    requires forall k: nat :: Repeat(block, minLen, i, j, k) ==> best.Some? && k <= best.value.1
    ensures BestBefore(block, minLen, i, j + 1, best)
  {
    if best.Some? {
      var q: nat :| Before(best.value.0, q, i, j) && FirstLongest(block, minLen, i, j, best.value.0, q, best.value.1);
      assert Before(best.value.0, q, i, j + 1);
      forall x: nat, y: nat, l: nat | Before(x, y, i, j + 1) && Repeat(block, minLen, x, y, l)
        ensures l <= best.value.1 && (Before(x, y, best.value.0, q) ==> l < best.value.1)
      {
        if !Before(x, y, i, j) { assert x == i && y == j; }
      }
      assert FirstLongest(block, minLen, i, j + 1, best.value.0, q, best.value.1);
    }
  }

  /** Pairs between `(p, q)` and `(p', q')` that are no repeats change nothing. */
  lemma SkipPairs(block: seq<string>, minLen: nat, p: nat, q: nat, p': nat, q': nat, best: Option<(nat, nat)>)
    requires BestBefore(block, minLen, p, q, best)
    requires forall x: nat, y: nat :: Before(x, y, p, q) ==> Before(x, y, p', q')
    requires forall x: nat, y: nat, k: nat :: Before(x, y, p', q') && Repeat(block, minLen, x, y, k) ==>
               Before(x, y, p, q)
    ensures BestBefore(block, minLen, p', q', best)
  {
    if best.Some? {
      var j: nat :| Before(best.value.0, j, p, q) && FirstLongest(block, minLen, p, q, best.value.0, j, best.value.1);
      assert Before(best.value.0, j, p', q') && FirstLongest(block, minLen, p', q', best.value.0, j, best.value.1);
    }
  }

  lemma AllSeen(block: seq<string>, minLen: nat, p: nat, best: Option<(nat, nat)>)
    requires BestBefore(block, minLen, p, 0, best) && p + minLen > |block|
    ensures Answer(block, minLen, best)
  {
    forall x: nat, y: nat, k: nat | Repeat(block, minLen, x, y, k) ensures Before(x, y, p, 0) {
      assert x + minLen <= y <= |block|;
    }
    if best.Some? {
      var j: nat :| Before(best.value.0, j, p, 0) && FirstLongest(block, minLen, p, 0, best.value.0, j, best.value.1);
      assert Repeat(block, minLen, best.value.0, j, best.value.1);
    }
  }

  /** The first pair, in scan order, of maximal length; none exactly when nothing repeats. */
  method FindLongestRepeat(block: seq<string>, minLen: nat) returns (best: Option<(nat, nat)>)
    ensures Answer(block, minLen, best)
  {
    var n := |block|;
    best := None;
    if n < 2 * minLen {
      return;
    }
    var i := 0;
    while i < n - minLen + 1
      invariant i <= n - minLen + 1 && BestBefore(block, minLen, i, 0, best)
    {
      var j := i + minLen;
      SkipPairs(block, minLen, i, 0, i, j, best);
      while j < n - minLen + 1
        invariant i + minLen <= j && BestBefore(block, minLen, i, j, best)
      {
        best := TryPair(block, minLen, i, j, best);
        j := j + 1;
      }
      SkipPairs(block, minLen, i, j, i + 1, 0, best);
      i := i + 1;
    }
    AllSeen(block, minLen, i, best);
  }
}
