/** Strings of a changelog: blanks, headings, list items, and the lines of a file. */
module ChangelogText {
  // ---- white space ----

  /** What `trim` removes and `\s` matches. */
  predicate IsSpace(c: char) {
    || '\t' <= c <= '\r' || c == ' ' || c == '\U{a0}' || c == '\U{1680}' || '\U{2000}' <= c <= '\U{200a}'
    || c == '\U{2028}' || c == '\U{2029}' || c == '\U{202f}' || c == '\U{205f}' || c == '\U{3000}' || c == '\U{feff}'
  }

  predicate Blank(s: string) {
    forall i :: 0 <= i < |s| ==> IsSpace(s[i])
  }

  function TrimStart(s: string): string {
    if s != "" && IsSpace(s[0]) then TrimStart(s[1..]) else s
  }

  function TrimEnd(s: string): string {
    if s != "" && IsSpace(s[|s| - 1]) then TrimEnd(s[..|s| - 1]) else s
  }

  function Trim(s: string): string { TrimEnd(TrimStart(s)) }

  /** No white space at either end. */
  predicate Tight(s: string) {
    s != "" && !IsSpace(s[0]) && !IsSpace(s[|s| - 1])
  }

  lemma {:induction false} TrimStartFacts(s: string)
    ensures TrimStart(s) != "" <==> !Blank(s)
    ensures TrimStart(s) != "" ==> !IsSpace(TrimStart(s)[0]) && TrimStart(s)[|TrimStart(s)| - 1] == s[|s| - 1]
    ensures forall c :: c in TrimStart(s) ==> c in s
  {
    if s != "" && IsSpace(s[0]) {
      TrimStartFacts(s[1..]);
      assert Blank(s[1..]) ==> Blank(s) by {
        if Blank(s[1..]) { forall i | 0 < i < |s| ensures IsSpace(s[i]) { assert IsSpace(s[1..][i - 1]); } }
      }
      assert Blank(s) ==> Blank(s[1..]);
    }
  }

  lemma {:induction false} TrimEndFacts(s: string)
    requires s != "" && !IsSpace(s[0])
    ensures Tight(TrimEnd(s)) && forall c :: c in TrimEnd(s) ==> c in s
  {
    if IsSpace(s[|s| - 1]) { TrimEndFacts(s[..|s| - 1]); }
  }

  lemma TrimFacts(s: string)
    requires !Blank(s)
    ensures Tight(Trim(s)) && forall c :: c in Trim(s) ==> c in s
  {
    TrimStartFacts(s);
    TrimEndFacts(TrimStart(s));
  }

  // ---- headings and items ----

  /** Where the first `]` is, from `k` on. */
  function CloseFrom(line: string, k: nat): (r: nat)
    requires k <= |line|
    ensures k <= r <= |line| && (r < |line| ==> line[r] == ']')
    decreases |line| - k
  {
    if k < |line| && line[k] != ']' then CloseFrom(line, k + 1) else k
  }

  /** `## [`, at least one character other than `]`, and `]`. */
  predicate IsReleaseHeading(line: string) {
    "## [" <= line && 4 < CloseFrom(line, 4) < |line|
  }

  function ReleaseTitle(heading: string): string
    requires IsReleaseHeading(heading)
  {
    heading[4..CloseFrom(heading, 4)]
  }

  /** `###`, white space, and something after it. */
  predicate IsSubsectionHeading(line: string) {
    "###" <= line && |line| > 3 && IsSpace(line[3]) && !Blank(line[3..])
  }

  function SubsectionTitle(heading: string): string
    requires IsSubsectionHeading(heading)
  {
    Trim(heading[3..])
  }

  predicate IsListItem(line: string) {
    "- " <= TrimStart(line)
  }

  lemma ListItemIsNotBlank(line: string)
    requires IsListItem(line)
    ensures !Blank(line)
  {
    TrimStartFacts(line);
  }

  lemma TrimTight(title: string)
    requires Tight(title)
    ensures Trim(" " + title) == title
  {
    assert (" " + title)[1..] == title;
    assert TrimStart(" " + title) == TrimStart(title) == title;
  }

  /** A heading written for a title is read back as that title. */
  lemma RenderedHeading(title: string)
    requires Tight(title)
    ensures IsSubsectionHeading("### " + title) && SubsectionTitle("### " + title) == title
    ensures !IsReleaseHeading("### " + title)
  {
    var line := "### " + title;
    assert line[3..] == " " + title;
    assert line[4] == title[0];
    TrimTight(title);
    assert !Blank(line[3..]) by { assert line[3..][1] == title[0]; }
    assert line[2] == '#';
  }

  // ---- what the three patterns match ----

  /** The line begins with the title in brackets, behind two hash marks and a blank. */
  predicate HeadsRelease(line: string, title: string) {
    title != "" && ']' !in title && "## [" + title + "]" <= line
  }

  lemma FirstClose(line: string, k: nat, e: nat)
    requires k <= e < |line| && line[e] == ']' && forall i :: k <= i < e ==> line[i] != ']'
    ensures CloseFrom(line, k) == e
    decreases e - k
  {
    if k < e { FirstClose(line, k + 1, e); }
  }

  lemma NoneBefore(line: string, k: nat, i: nat)
    requires k <= i < |line| && i < CloseFrom(line, k)
    ensures line[i] != ']'
    decreases i - k
  {
    if k < i { NoneBefore(line, k + 1, i); }
  }

  lemma ReleaseHeadingIff(line: string, title: string)
    ensures HeadsRelease(line, title) <==> IsReleaseHeading(line) && ReleaseTitle(line) == title
  {
    if HeadsRelease(line, title) {
      var e := 4 + |title|;
      assert forall i :: 4 <= i < e ==> line[i] == ("## [" + title + "]")[i] == title[i - 4] && title[i - 4] in title;
      assert line[e] == ("## [" + title + "]")[e] == ']';
      FirstClose(line, 4, e);
      assert forall i :: 0 <= i < 4 ==> line[i] == ("## [" + title + "]")[i] == "## ["[i];
    }
    if IsReleaseHeading(line) && ReleaseTitle(line) == title {
      var e := CloseFrom(line, 4);
      forall i | 0 <= i < |title| ensures title[i] != ']' { NoneBefore(line, 4, i + 4); }
      assert line[..e + 1] == "## [" + title + "]";
    }
  }

  /** Three hash marks, white space, the title without white space around it, and white space. */
  ghost predicate HeadsCategory(line: string, title: string) {
    exists pad, rest :: pad != "" && Blank(pad) && Tight(title) && Blank(rest) && line == "###" + pad + title + rest
  }

  lemma {:induction false} TrimStartPadded(pad: string, s: string)
    requires Blank(pad) && (s != "" ==> !IsSpace(s[0]))
    ensures TrimStart(pad + s) == s
  {
    if pad == "" {
      assert pad + s == s;
    } else {
      assert (pad + s)[1..] == pad[1..] + s;
      TrimStartPadded(pad[1..], s);
    }
  }

  lemma {:induction false} TrimEndPadded(s: string, pad: string)
    requires Blank(pad) && (s != "" ==> !IsSpace(s[|s| - 1]))
    ensures TrimEnd(s + pad) == s
  {
    if pad == "" {
      assert s + pad == s;
    } else {
      assert (s + pad)[..|s + pad| - 1] == s + pad[..|pad| - 1];
      TrimEndPadded(s, pad[..|pad| - 1]);
    }
  }

  /** Trimming takes white space off both ends. */
  lemma {:induction false} TrimStartSplit(s: string) returns (pad: string)
    ensures Blank(pad) && s == pad + TrimStart(s)
  {
    pad := "";
    if s != "" && IsSpace(s[0]) {
      var more := TrimStartSplit(s[1..]);
      pad := [s[0]] + more;
      assert s == [s[0]] + s[1..];
    }
  }

  lemma {:induction false} TrimEndSplit(s: string) returns (pad: string)
    ensures Blank(pad) && s == TrimEnd(s) + pad
  {
    pad := "";
    if s != "" && IsSpace(s[|s| - 1]) {
      var more := TrimEndSplit(s[..|s| - 1]);
      pad := more + [s[|s| - 1]];
      assert s == s[..|s| - 1] + [s[|s| - 1]];
    }
  }

  lemma HeadedIsHeading(line: string, pad: string, title: string, rest: string)
    requires pad != "" && Blank(pad) && Tight(title) && Blank(rest) && line == "###" + pad + title + rest
    ensures IsSubsectionHeading(line) && SubsectionTitle(line) == title
  {
    assert line[3..] == pad + (title + rest) && line[..3] == "###" && line[3] == pad[0];
    assert line[3..][|pad|] == title[0];
    TrimStartPadded(pad, title + rest);
    TrimEndPadded(title, rest);
  }

  lemma HeadingIsHeaded(line: string)
    requires IsSubsectionHeading(line)
    ensures HeadsCategory(line, SubsectionTitle(line))
  {
    var s := line[3..];
    var pad := TrimStartSplit(s);
    var rest := TrimEndSplit(TrimStart(s));
    TrimFacts(s);
    TrimStartFacts(s);
    assert s[0] == line[3];
    assert line == "###" + pad + SubsectionTitle(line) + rest;
  }

  lemma CategoryHeadingIff(line: string, title: string)
    ensures HeadsCategory(line, title) <==> IsSubsectionHeading(line) && SubsectionTitle(line) == title
  {
    if HeadsCategory(line, title) {
      var pad, rest :| pad != "" && Blank(pad) && Tight(title) && Blank(rest) && line == "###" + pad + title + rest;
      HeadedIsHeading(line, pad, title, rest);
    }
    if IsSubsectionHeading(line) { HeadingIsHeaded(line); }
  }

  /** The texts agree but for white space at their ends. */
  ghost predicate AgreeButForSpace(s: string, t: string) {
    exists core, a, b, c, d :: Blank(a) && Blank(b) && Blank(c) && Blank(d) && (core == "" || Tight(core))
                               && s == a + core + b && t == c + core + d
  }

  lemma TrimSplits(s: string) returns (a: string, b: string)
    ensures Blank(a) && Blank(b) && s == a + Trim(s) + b && (Trim(s) == "" || Tight(Trim(s)))
  {
    a := TrimStartSplit(s);
    b := TrimEndSplit(TrimStart(s));
    assert s == a + (Trim(s) + b);
    if Blank(s) {
      TrimStartFacts(s);
    } else {
      TrimFacts(s);
    }
  }

  lemma TrimOfPadded(a: string, core: string, b: string)
    requires Blank(a) && Blank(b) && (core == "" || Tight(core))
    ensures Trim(a + core + b) == core
  {
    if core == "" {
      assert Blank(a + b) && a + core + b == (a + b) + "";
      TrimStartPadded(a + b, "");
    } else {
      assert a + core + b == a + (core + b) && (core + b)[0] == core[0];
      TrimStartPadded(a, core + b);
      TrimEndPadded(core, b);
    }
  }

  lemma SameTrimIff(s: string, t: string)
    ensures Trim(s) == Trim(t) <==> AgreeButForSpace(s, t)
  {
    if Trim(s) == Trim(t) {
      var a, b := TrimSplits(s);
      var c, d := TrimSplits(t);
      assert s == a + Trim(s) + b && t == c + Trim(s) + d;
    }
    if AgreeButForSpace(s, t) {
      var core, a, b, c, d :| Blank(a) && Blank(b) && Blank(c) && Blank(d) && (core == "" || Tight(core))
                              && s == a + core + b && t == c + core + d;
      TrimOfPadded(a, core, b);
      TrimOfPadded(c, core, d);
    }
  }

  /** A list item: a dash and a blank behind some white space. */
  lemma ListItemIff(line: string)
    ensures IsListItem(line) <==> exists pad, text :: Blank(pad) && line == pad + "- " + text
  {
    if IsListItem(line) {
      var pad := TrimStartSplit(line);
      assert line == pad + "- " + TrimStart(line)[2..];
    }
    if pad, text :| Blank(pad) && line == pad + "- " + text {
      TrimStartPadded(pad, "- " + text);
      assert line == pad + ("- " + text);
    }
  }

  // ---- the lines of a file ----

  /** CR LF and CR become LF. */
  function NormalizeBreaks(s: string): string {
    if s == "" then ""
    else if s[0] != '\r' then [s[0]] + NormalizeBreaks(s[1..])
    else if |s| > 1 && s[1] == '\n' then "\n" + NormalizeBreaks(s[2..])
    else "\n" + NormalizeBreaks(s[1..])
  }

  function Split(s: string): (r: seq<string>)
    ensures r != []
  {
    if s == "" then [""]
    else
      var rest := Split(s[1..]);
      if s[0] == '\n' then [""] + rest else [[s[0]] + rest[0]] + rest[1..]
  }

  function Join(lines: seq<string>): string {
    if lines == [] then "" else if |lines| == 1 then lines[0] else lines[0] + "\n" + Join(lines[1..])
  }

  function ContentLines(content: string): seq<string> {
    var s := NormalizeBreaks(content);
    if s != "" && s[|s| - 1] == '\n' then Split(s[..|s| - 1]) else Split(s)
  }

  /** Holds no line break. */
  predicate Plain(line: string) { '\n' !in line && '\r' !in line }

  predicate AllPlain(lines: seq<string>) {
    forall i :: 0 <= i < |lines| ==> Plain(lines[i])
  }

  lemma {:induction false} NormalizeBreaksHasNoCr(s: string)
    ensures '\r' !in NormalizeBreaks(s)
    ensures '\r' !in s ==> NormalizeBreaks(s) == s
  {
    if s != "" {
      if s[0] != '\r' {
        NormalizeBreaksHasNoCr(s[1..]);
        assert s == [s[0]] + s[1..];
      } else if |s| > 1 && s[1] == '\n' {
        NormalizeBreaksHasNoCr(s[2..]);
      } else {
        NormalizeBreaksHasNoCr(s[1..]);
      }
    }
  }

  lemma {:induction false} SplitIsPlain(s: string)
    requires '\r' !in s
    ensures AllPlain(Split(s))
  {
    if s != "" {
      SplitIsPlain(s[1..]);
      var rest := Split(s[1..]);
      assert s[0] in s;
      assert Plain(rest[0]);
      forall i | 0 <= i < |Split(s)| ensures Plain(Split(s)[i]) {
        if s[0] != '\n' && i > 0 { assert Split(s)[i] == rest[i]; }
        if s[0] == '\n' && i > 0 { assert Split(s)[i] == rest[i - 1]; }
      }
    }
  }

  lemma ContentLinesArePlain(content: string)
    ensures AllPlain(ContentLines(content))
  {
    var s := NormalizeBreaks(content);
    NormalizeBreaksHasNoCr(content);
    SplitIsPlain(s);
    if s != "" { SplitIsPlain(s[..|s| - 1]); }
  }

  lemma {:induction false} SplitOne(line: string, rest: string)
    requires Plain(line)
    ensures Split(line) == [line] && Split(line + "\n" + rest) == [line] + Split(rest)
  {
    var s := line + "\n" + rest;
    if line == "" {
      assert s[1..] == rest;
    } else {
      assert s[1..] == line[1..] + "\n" + rest && line == [line[0]] + line[1..];
      assert line[0] in line;
      SplitOne(line[1..], rest);
    }
  }

  lemma {:induction false} SplitJoin(lines: seq<string>)
    requires lines != [] && AllPlain(lines)
    ensures Split(Join(lines)) == lines && '\r' !in Join(lines)
  {
    if |lines| == 1 {
      SplitOne(lines[0], "");
      assert lines == [lines[0]];
    } else {
      SplitOne(lines[0], Join(lines[1..]));
      SplitJoin(lines[1..]);
      assert lines == [lines[0]] + lines[1..];
    }
  }

  /** Writing lines to a file and reading the file gives the lines back. */
  lemma ContentRoundTrip(lines: seq<string>)
    requires lines != [] && AllPlain(lines)
    ensures ContentLines(Join(lines) + "\n") == lines
  {
    SplitJoin(lines);
    var s := Join(lines) + "\n";
    NormalizeBreaksHasNoCr(s);
    assert s[..|s| - 1] == Join(lines);
  }

  /** Lines with a break behind each. */
  function Broken(lines: seq<string>, b: string): string {
    if lines == [] then "" else lines[0] + b + Broken(lines[1..], b)
  }

  lemma {:induction false} NormalizeLine(line: string, b: string, rest: string)
    requires Plain(line) && b in ["\n", "\r\n", "\r"] && (rest != "" ==> rest[0] != '\n' || b != "\r")
    ensures NormalizeBreaks(line + b + rest) == line + "\n" + NormalizeBreaks(rest)
  {
    var s := line + b + rest;
    if line == "" {
      assert s == b + rest && s[|b|..] == rest;
      assert "" + "\n" + NormalizeBreaks(rest) == "\n" + NormalizeBreaks(rest);
    } else {
      assert line[0] in line && line == [line[0]] + line[1..];
      assert s[1..] == line[1..] + b + rest && s[0] == line[0];
      NormalizeLine(line[1..], b, rest);
      assert [line[0]] + (line[1..] + "\n" + NormalizeBreaks(rest)) == line + "\n" + NormalizeBreaks(rest);
    }
  }

  lemma {:induction false} NormalizeBroken(lines: seq<string>, b: string)
    requires AllPlain(lines) && b in ["\n", "\r\n", "\r"]
    ensures NormalizeBreaks(Broken(lines, b)) == Broken(lines, "\n")
  {
    if lines != [] {
      var rest := Broken(lines[1..], b);
      if b == "\r" && rest != "" {
        assert Plain(lines[1]);
        assert lines[1] != "" ==> rest[0] == lines[1][0];
      }
      NormalizeLine(lines[0], b, rest);
      NormalizeBroken(lines[1..], b);
    }
  }

  lemma {:induction false} BrokenIsJoined(lines: seq<string>)
    requires lines != []
    ensures Broken(lines, "\n") == Join(lines) + "\n"
  {
    if |lines| > 1 {
      BrokenIsJoined(lines[1..]);
    } else {
      assert Broken(lines[1..], "\n") == "";
    }
  }

  /** Whichever of the three line breaks a file uses, its lines are read. */
  lemma AnyBreakRoundTrip(lines: seq<string>, b: string)
    requires lines != [] && AllPlain(lines) && b in ["\n", "\r\n", "\r"]
    ensures ContentLines(Broken(lines, b)) == lines
  {
    NormalizeBroken(lines, b);
    BrokenIsJoined(lines);
    SplitJoin(lines);
    var s := Join(lines) + "\n";
    assert s[..|s| - 1] == Join(lines);
  }
}
