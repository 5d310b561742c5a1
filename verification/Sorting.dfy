/** The stable sort that the modelled programs take from their libraries. */
module Sorting {
  /** `lt` compares by some key: "not after" is a total preorder. */
  ghost predicate Ordering<T(!new)>(lt: (T, T) -> bool) {
    && (forall a, b :: lt(a, b) ==> !lt(b, a))
    && (forall a, b, c :: !lt(b, a) && !lt(c, b) ==> !lt(c, a))
  }

  predicate Sorted<T>(lt: (T, T) -> bool, s: seq<T>) {
    forall i, j :: 0 <= i < j < |s| ==> !lt(s[j], s[i])
  }

  function Insert<T>(lt: (T, T) -> bool, x: T, s: seq<T>): seq<T> {
    if s == [] || !lt(s[0], x) then [x] + s else [s[0]] + Insert(lt, x, s[1..])
  }

  function Sort<T>(lt: (T, T) -> bool, s: seq<T>): seq<T> {
    if s == [] then [] else Insert(lt, s[0], Sort(lt, s[1..]))
  }

  lemma {:induction false} InsertPermutes<T>(lt: (T, T) -> bool, x: T, s: seq<T>)
    ensures multiset(Insert(lt, x, s)) == multiset(s) + multiset{x}
  {
    if s != [] && lt(s[0], x) {
      InsertPermutes(lt, x, s[1..]);
      assert s == [s[0]] + s[1..];
    }
  }

  lemma SameElements<T>(a: seq<T>, b: seq<T>)
    requires multiset(a) == multiset(b)
    ensures |a| == |b| && forall x :: x in a <==> x in b
  {
    assert |multiset(a)| == |multiset(b)|;
    forall x ensures x in a <==> x in b {
      assert x in a <==> x in multiset(a);
      assert x in b <==> x in multiset(b);
    }
  }

  lemma {:induction false} SortPermutes<T>(lt: (T, T) -> bool, s: seq<T>)
    ensures multiset(Sort(lt, s)) == multiset(s)
    ensures forall x :: x in Sort(lt, s) <==> x in s
    ensures |Sort(lt, s)| == |s|
  {
    if s != [] {
      SortPermutes(lt, s[1..]);
      InsertPermutes(lt, s[0], Sort(lt, s[1..]));
      assert s == [s[0]] + s[1..];
    }
    SameElements(Sort(lt, s), s);
  }

  lemma {:induction false} InsertSorts<T(!new)>(lt: (T, T) -> bool, x: T, s: seq<T>)
    requires Ordering(lt) && Sorted(lt, s)
    ensures Sorted(lt, Insert(lt, x, s))
  {
    if s != [] && lt(s[0], x) {
      InsertSorts(lt, x, s[1..]);
      InsertPermutes(lt, x, s[1..]);
      var t := Insert(lt, x, s[1..]);
      forall j | 0 <= j < |t| ensures !lt(t[j], s[0]) {
        assert t[j] in multiset(t);
        if t[j] != x {
          assert t[j] in multiset(s[1..]);
          assert t[j] in s[1..];
        }
      }
    } else if s != [] {
      assert forall j :: 0 <= j < |s| ==> j == 0 || !lt(s[j], s[0]);
    }
  }

  lemma {:induction false} SortSorts<T(!new)>(lt: (T, T) -> bool, s: seq<T>)
    requires Ordering(lt)
    ensures Sorted(lt, Sort(lt, s))
  {
    if s != [] {
      SortSorts(lt, s[1..]);
      InsertSorts(lt, s[0], Sort(lt, s[1..]));
    }
  }

  /** Stability, in the form that matters here: sorting what is sorted moves nothing. */
  lemma {:induction false} SortOfSorted<T>(lt: (T, T) -> bool, s: seq<T>)
    requires Sorted(lt, s)
    ensures Sort(lt, s) == s
  {
    if s != [] {
      SortOfSorted(lt, s[1..]);
      assert |s| > 1 ==> !lt(s[1], s[0]);
    }
  }

  // ---- stability ----

  /** `out` holds the elements of `s`, the one at `i` taken from place `p[i]`. */
  ghost predicate Rearranges<T>(s: seq<T>, out: seq<T>, p: seq<nat>) {
    && |p| == |out| == |s|
    && (forall i :: 0 <= i < |p| ==> p[i] < |s| && out[i] == s[p[i]])
    && forall i, j :: 0 <= i < j < |p| ==> p[i] != p[j]
  }

  /** In order, and what compares equal in its old order. */
  ghost predicate StablySorted<T>(lt: (T, T) -> bool, out: seq<T>, p: seq<nat>) {
    |p| == |out| && forall i, j :: 0 <= i < j < |out| ==> !lt(out[j], out[i]) && (!lt(out[i], out[j]) ==> p[i] < p[j])
  }

  lemma {:induction false} InsertIs<T>(lt: (T, T) -> bool, x: T, s: seq<T>) returns (k: nat)
    ensures k <= |s| && Insert(lt, x, s) == s[..k] + [x] + s[k..]
    ensures forall i :: 0 <= i < k ==> lt(s[i], x)
  {
    k := 0;
    if s != [] && lt(s[0], x) {
      var rest := s[1..];
      k := InsertIs(lt, x, rest);
      assert s[0..] == s && s == [s[0]] + rest;
      assert [s[0]] + (rest[..k] + [x] + rest[k..]) == s[..k + 1] + [x] + s[k + 1..];
      forall i | 0 <= i < k + 1 ensures lt(s[i], x) { if i > 0 { assert s[i] == rest[i - 1]; } }
      k := k + 1;
    } else {
      assert s[..0] + [x] + s[0..] == [x] + s;
    }
  }

  function Shifted(p: seq<nat>): seq<nat> { seq(|p|, i requires 0 <= i < |p| => p[i] + 1) }

  lemma InsertRearranges<T>(s: seq<T>, sorted: seq<T>, p: seq<nat>, k: nat, x: T, out: seq<T>, q: seq<nat>)
    requires Rearranges(s, sorted, p) && k <= |sorted| && out == sorted[..k] + [x] + sorted[k..]
    requires q == Shifted(p)[..k] + [0] + Shifted(p)[k..]
    ensures Rearranges([x] + s, out, q)
  {
    forall i | 0 <= i < |q| ensures q[i] < |s| + 1 && out[i] == ([x] + s)[q[i]] {
      if i < k {
        assert out[i] == sorted[i] == s[p[i]];
      } else if i > k {
        assert out[i] == sorted[i - 1] == s[p[i - 1]];
      }
    }
    forall i, j | 0 <= i < j < |q| ensures q[i] != q[j] {
      var a, b := if i < k then i else i - 1, if j < k then j else j - 1;
      assert i != k ==> q[i] == p[a] + 1;
      assert j != k ==> q[j] == p[b] + 1;
    }
  }

  lemma InsertIsStable<T(!new)>(lt: (T, T) -> bool, sorted: seq<T>, p: seq<nat>, k: nat, x: T, out: seq<T>, q: seq<nat>)
    requires Ordering(lt) && StablySorted(lt, sorted, p) && k <= |sorted| && out == sorted[..k] + [x] + sorted[k..]
    requires q == Shifted(p)[..k] + [0] + Shifted(p)[k..]
    requires Sorted(lt, out) && forall i :: 0 <= i < k ==> lt(sorted[i], x)
    ensures StablySorted(lt, out, q)
  {
    forall i, j | 0 <= i < j < |out| ensures !lt(out[j], out[i]) && (!lt(out[i], out[j]) ==> q[i] < q[j]) {
      var a, b := if i < k then i else i - 1, if j < k then j else j - 1;
      if i != k && j != k {
        assert out[i] == sorted[a] && out[j] == sorted[b] && q[i] == p[a] + 1 && q[j] == p[b] + 1;
      }
    }
  }

  /** The sort is stable: it returns the one arrangement that is in order and keeps ties as they were. */
  lemma {:induction false} SortIsStable<T(!new)>(lt: (T, T) -> bool, s: seq<T>) returns (p: seq<nat>)
    requires Ordering(lt)
    ensures Rearranges(s, Sort(lt, s), p) && StablySorted(lt, Sort(lt, s), p)
  {
    p := [];
    if s != [] {
      var sorted := Sort(lt, s[1..]);
      var tail := SortIsStable(lt, s[1..]);
      var k := InsertIs(lt, s[0], sorted);
      SortSorts(lt, s);
      p := Shifted(tail)[..k] + [0] + Shifted(tail)[k..];
      InsertRearranges(s[1..], sorted, tail, k, s[0], Sort(lt, s), p);
      InsertIsStable(lt, sorted, tail, k, s[0], Sort(lt, s), p);
      assert [s[0]] + s[1..] == s;
    }
  }
}
