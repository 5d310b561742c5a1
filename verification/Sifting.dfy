/** Which elements of a list are kept, in their order. */
module Sifting {
  /** `out` is what stands in `s` at the places `p`, from left to right. */
  ghost predicate Sifts<T>(s: seq<T>, out: seq<T>, p: seq<nat>) {
    && |p| == |out| && (forall m :: 0 <= m < |p| ==> p[m] < |s| && out[m] == s[p[m]])
    && forall m, n :: 0 <= m < n < |p| ==> p[m] < p[n]
  }

  function Moved(p: seq<nat>, n: nat): (r: seq<nat>)
    ensures |r| == |p| && forall i :: 0 <= i < |r| ==> r[i] == p[i] + n
  {
    seq(|p|, i requires 0 <= i < |p| => p[i] + n)
  }

  lemma MovedHas(p: seq<nat>, n: nat, k: nat)
    ensures k in Moved(p, n) <==> k >= n && k - n in p
  {
    if k >= n && k - n in p {
      var i :| 0 <= i < |p| && p[i] == k - n;
      assert Moved(p, n)[i] == k;
    }
    if k in Moved(p, n) {
      var i :| 0 <= i < |p| && Moved(p, n)[i] == k;
      assert p[i] == k - n;
    }
  }

  lemma SiftJoin<T>(s: seq<T>, out: seq<T>, p: seq<nat>, t: seq<T>, more: seq<T>, q: seq<nat>)
    requires Sifts(s, out, p) && Sifts(t, more, q)
    ensures Sifts(s + t, out + more, p + Moved(q, |s|))
  {
    var r := p + Moved(q, |s|);
    forall m | 0 <= m < |r| ensures r[m] < |s + t| && (out + more)[m] == (s + t)[r[m]] {
      if m >= |p| { assert (out + more)[m] == more[m - |p|] == t[q[m - |p|]]; }
    }
  }

  /** The places of what stays, when the first element is put in front of the rest. */
  lemma PlacesFirst(p: seq<nat>, keep: bool, k: nat)
    ensures k in (if keep then [0] else []) + Moved(p, 1) <==> if k == 0 then keep else k - 1 in p
  {
    var one := if keep then [0] else [];
    MovedHas(p, 1, k);
    assert k in one <==> keep && k == 0;
    assert k in one + Moved(p, 1) <==> k in one || k in Moved(p, 1);
  }

  lemma SiftOne<T>(x: T, rest: seq<T>, out: seq<T>, p: seq<nat>, keep: bool)
    requires Sifts(rest, out, p)
    ensures Sifts([x] + rest, (if keep then [x] else []) + out, (if keep then [0] else []) + Moved(p, 1))
  {
    SiftJoin([x], if keep then [x] else [], if keep then [0] else [], rest, out, p);
  }

  lemma SiftFirst<T>(s: seq<T>, rest: seq<T>, p: seq<nat>, keep: bool) returns (q: seq<nat>)
    requires s != [] && Sifts(s[1..], rest, p)
    ensures Sifts(s, (if keep then [s[0]] else []) + rest, q)
    ensures forall k: nat :: k in q <==> if k == 0 then keep else k - 1 in p
  {
    q := (if keep then [0] else []) + Moved(p, 1);
    SiftOne(s[0], s[1..], rest, p, keep);
    assert [s[0]] + s[1..] == s;
    forall k: nat ensures k in q <==> if k == 0 then keep else k - 1 in p { PlacesFirst(p, keep, k); }
  }
}
