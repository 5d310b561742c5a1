/** Well-formed UTF-8 (sections 3 and 4 of RFC 3629) and its character boundaries. */
module Utf8 {
  type Byte = b: int | 0 <= b < 256

  predicate Continuation(b: Byte) { 0x80 <= b < 0xC0 }

  /** Length of the well-formed character that `s` starts with, or 0. */
  function CharLength(s: seq<Byte>): (n: nat)
    ensures n <= 4 && n <= |s|
    ensures n > 0 ==> !Continuation(s[0])
    ensures forall i :: 0 < i < n ==> Continuation(s[i])
  {
    if s == [] then 0
    else if s[0] < 0x80 then 1
    else if |s| >= 2 && 0xC2 <= s[0] <= 0xDF && Continuation(s[1]) then 2
    else if |s| >= 3 && 0xE0 <= s[0] <= 0xEF && Continuation(s[1]) && Continuation(s[2])
            && (s[0] == 0xE0 ==> s[1] >= 0xA0) && (s[0] == 0xED ==> s[1] < 0xA0) then 3
    else if |s| >= 4 && 0xF0 <= s[0] <= 0xF4 && Continuation(s[1]) && Continuation(s[2]) && Continuation(s[3])
            && (s[0] == 0xF0 ==> s[1] >= 0x90) && (s[0] == 0xF4 ==> s[1] < 0x90) then 4
    else 0
  }

  predicate IsChar(c: seq<Byte>) { c != [] && CharLength(c) == |c| }

  function Flatten(cs: seq<seq<Byte>>): seq<Byte> {
    if cs == [] then [] else cs[0] + Flatten(cs[1..])
  }

  ghost predicate Spells(cs: seq<seq<Byte>>, s: seq<Byte>) {
    (forall i :: 0 <= i < |cs| ==> IsChar(cs[i])) && Flatten(cs) == s
  }

  /** `s` is a sequence of well-formed characters. */
  ghost predicate ValidUtf8(s: seq<Byte>) {
    exists cs :: Spells(cs, s)
  }

  predicate IsBoundary(s: seq<Byte>, i: nat) {
    i == 0 || i == |s| || (i < |s| && !Continuation(s[i]))
  }

  lemma EmptyIsValid()
    ensures ValidUtf8([])
  {
    assert Spells([], []);
  }

  lemma {:induction false} FlattenConcat(a: seq<seq<Byte>>, b: seq<seq<Byte>>)
    ensures Flatten(a + b) == Flatten(a) + Flatten(b)
  {
    if a == [] {
      assert a + b == b;
    } else {
      assert (a + b)[1..] == a[1..] + b;
      FlattenConcat(a[1..], b);
    }
  }

  lemma ConcatIsValid(a: seq<Byte>, b: seq<Byte>)
    requires ValidUtf8(a) && ValidUtf8(b)
    ensures ValidUtf8(a + b)
  {
    var cs :| Spells(cs, a);
    var ds :| Spells(ds, b);
    FlattenConcat(cs, ds);
    assert Spells(cs + ds, a + b);
  }

  /** A valid text that is not empty starts with a whole character, and goes on validly after it. */
  lemma FirstChar(s: seq<Byte>)
    requires ValidUtf8(s) && s != []
    ensures CharLength(s) > 0 && ValidUtf8(s[CharLength(s)..])
  {
    var cs :| Spells(cs, s);
    assert cs != [];
    var c, rest := cs[0], Flatten(cs[1..]);
    assert s == c + rest;
    CharThenRest(c, rest);
    assert s[|c|..] == rest;
    assert Spells(cs[1..], rest);
  }

  lemma CharThenRest(c: seq<Byte>, rest: seq<Byte>)
    requires IsChar(c)
    ensures CharLength(c + rest) == |c|
  {
  }

  lemma CharIsValid(s: seq<Byte>)
    requires CharLength(s) > 0
    ensures ValidUtf8(s[..CharLength(s)])
  {
    var c := s[..CharLength(s)];
    assert CharLength(c) == |c|;
    assert Flatten([c]) == c + Flatten([c][1..]) == c;
    assert Spells([c], c);
  }

  /** No boundary lies inside the first character. */
  lemma BoundaryPastFirst(s: seq<Byte>, i: nat)
    requires s != [] && CharLength(s) > 0 && 0 < i <= |s| && IsBoundary(s, i)
    ensures CharLength(s) <= i && IsBoundary(s[CharLength(s)..], i - CharLength(s))
  {
  }

  lemma CutAfter(s: seq<Byte>, n: nat, i: nat)
    requires n <= i <= |s|
    ensures s[n..][i - n..] == s[i..] && s[..n] + s[n..][..i - n] == s[..i]
  {
  }

  /** Cutting a valid text at a character boundary gives two valid texts. */
  lemma {:induction false} SplitIsValid(s: seq<Byte>, i: nat)
    requires ValidUtf8(s) && i <= |s| && IsBoundary(s, i)
    ensures ValidUtf8(s[..i]) && ValidUtf8(s[i..])
    decreases |s|
  {
    if i == 0 {
      EmptyIsValid();
      assert s[..0] == [] && s[0..] == s;
    } else {
      FirstChar(s);
      BoundaryPastFirst(s, i);
      var n := CharLength(s);
      SplitIsValid(s[n..], i - n);
      CharIsValid(s);
      ConcatIsValid(s[..n], s[n..][..i - n]);
      CutAfter(s, n, i);
    }
  }

  /** The library's validation of a byte string. */
  method FromUtf8(s: seq<Byte>) returns (ok: bool)
    ensures ok <==> ValidUtf8(s)
  {
    var i := 0;
    EmptyIsValid();
    assert s[0..] == s;
    while i < |s|
      invariant 0 <= i <= |s|
      invariant ValidUtf8(s[..i])
      invariant ValidUtf8(s) ==> ValidUtf8(s[i..])
    {
      var rest := s[i..];
      var n := CharLength(rest);
      if n == 0 {
        if ValidUtf8(s) { FirstChar(rest); assert false; }
        return false;
      }
      if ValidUtf8(rest) { FirstChar(rest); }
      CharIsValid(rest);
      ConcatIsValid(s[..i], rest[..n]);
      assert s[..i] + rest[..n] == s[..i + n] && rest[n..] == s[i + n..];
      i := i + n;
    }
    assert s[..i] == s;
    ok := true;
  }

  // ---- what the characters and boundaries are ----

  /** The code points that have an encoding. */
  predicate Scalar(v: int) { 0 <= v < 0xD800 || 0xE000 <= v <= 0x11_0000 - 1 }

  /** The table of section 3 of RFC 3629. */
  function Encode(v: int): seq<Byte>
    requires Scalar(v)
  {
    if v < 0x80 then [v]
    else if v < 0x800 then [0xC0 + v / 64, 0x80 + v % 64]
    else if v < 0x1_0000 then [0xE0 + v / 4096, 0x80 + v / 64 % 64, 0x80 + v % 64]
    else [0xF0 + v / 262144, 0x80 + v / 4096 % 64, 0x80 + v / 64 % 64, 0x80 + v % 64]
  }

  lemma Digits(v: int, a: int, b: int)
    requires v == a * 64 + b && 0 <= b < 64
    ensures v / 64 == a && v % 64 == b
  {
  }

  lemma EncodedIsChar(v: int)
    requires Scalar(v)
    ensures IsChar(Encode(v))
  {
    var a, b := v / 64, v % 64;
    var c, d := a / 64, a % 64;
    assert v / 4096 == c && v / 262144 == c / 64;
  }

  lemma CharIsEncoded(s: seq<Byte>) returns (v: int)
    requires IsChar(s)
    ensures Scalar(v) && Encode(v) == s
  {
    if |s| == 1 {
      v := s[0];
    } else {
      var a: int, b: int := s[0], s[1] - 0x80;
      if |s| == 2 {
        v := (a - 0xC0) * 64 + b;
        Digits(v, a - 0xC0, b);
      } else {
        var c: int := s[2] - 0x80;
        if |s| == 3 {
          var ab := (a - 0xE0) * 64 + b;
          v := ab * 64 + c;
          Digits(v, ab, c);
          Digits(ab, a - 0xE0, b);
          assert v / 4096 == ab / 64;
        } else {
          var d: int := s[3] - 0x80;
          var ab := (a - 0xF0) * 64 + b;
          var abc := ab * 64 + c;
          v := abc * 64 + d;
          Digits(v, abc, d);
          Digits(abc, ab, c);
          Digits(ab, a - 0xF0, b);
          assert v / 4096 == abc / 64 && v / 262144 == ab / 64;
        }
      }
    }
  }

  /** The well-formed characters are the encodings of the scalar values. */
  lemma CharsAreScalars(s: seq<Byte>)
    ensures IsChar(s) <==> exists v :: Scalar(v) && Encode(v) == s
  {
    if IsChar(s) { var v := CharIsEncoded(s); }
    if v :| Scalar(v) && Encode(v) == s { EncodedIsChar(v); }
  }

  /** A boundary is where a valid text can be cut into two valid texts. */
  lemma {:induction false} BoundaryIff(s: seq<Byte>, i: nat)
    requires ValidUtf8(s) && i <= |s|
    ensures IsBoundary(s, i) <==> ValidUtf8(s[..i]) && ValidUtf8(s[i..])
    decreases |s|
  {
    if IsBoundary(s, i) {
      SplitIsValid(s, i);
    } else if ValidUtf8(s[i..]) {
      FirstChar(s[i..]);
    }
  }
}
