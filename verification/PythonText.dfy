/** White space and line terminators of Python strings. */
module PythonText {
  /** The characters at which a string is cut into lines. */
  predicate IsTerminator(c: char) {
    '\U{000a}' <= c <= '\U{000d}' || '\U{001c}' <= c <= '\U{001e}' || c == '\U{0085}' || c == '\U{2028}'
      || c == '\U{2029}'
  }

  predicate IsSpace(c: char) {
    || IsTerminator(c) || c == '\t' || c == '\U{001f}' || c == ' ' || c == '\U{00a0}' || c == '\U{1680}'
    || '\U{2000}' <= c <= '\U{200a}' || c == '\U{202f}' || c == '\U{205f}' || c == '\U{3000}'
  }

  predicate Blank(line: string) {
    forall i :: 0 <= i < |line| ==> IsSpace(line[i])
  }

  function RStrip(raw: string): string {
    if raw != "" && (raw[|raw| - 1] == '\r' || raw[|raw| - 1] == '\n') then RStrip(raw[..|raw| - 1]) else raw
  }

  function LStrip(text: string): string {
    if text != "" && IsSpace(text[0]) then LStrip(text[1..]) else text
  }
}
