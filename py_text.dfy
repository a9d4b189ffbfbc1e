/**
  The three string primitives of Python 3 that the cell classifier and the
  blank-cell test rely on: `str.isspace` (one character at a time),
  `str.splitlines()` and `str.lstrip()`. Characters are Unicode scalar values.
 */
module PyText {

  /** Python's `str.isspace` for a single character: the characters whose
      bidirectional class is WS, B or S, or whose category is Zs. */
  predicate IsSpace(c: char) {
    || c == ' ' || c == '\t' || c == '\n' || c == '\r'
    || ('\U{0B}' <= c <= '\U{0C}')
    || ('\U{1C}' <= c <= '\U{1F}')
    || c == '\U{85}' || c == '\U{A0}' || c == '\U{1680}'
    || ('\U{2000}' <= c <= '\U{200A}')
    || c == '\U{2028}' || c == '\U{2029}' || c == '\U{202F}' || c == '\U{205F}'
    || c == '\U{3000}'
  }

  /** The characters `str.splitlines()` ends a line at. Note that "\x1f" is
      whitespace but not a line boundary. */
  predicate IsLineBreak(c: char) {
    || c == '\n' || c == '\r'
    || ('\U{0B}' <= c <= '\U{0C}')
    || ('\U{1C}' <= c <= '\U{1E}')
    || c == '\U{85}' || c == '\U{2028}' || c == '\U{2029}'
  }

  /** Whitespace inside one line: what `lstrip` removes before the first
      visible character of a line produced by `splitlines`. */
  predicate IsInlineSpace(c: char) {
    IsSpace(c) && !IsLineBreak(c)
  }

  /** `t` holds no line boundary. */
  predicate IsSingleLine(t: string) {
    forall k :: 0 <= k < |t| ==> !IsLineBreak(t[k])
  }

  /** Index of the first line boundary of `s`, or `|s|` if there is none. */
  function LineEnd(s: string): (i: nat)
    ensures i <= |s|
    ensures i < |s| ==> IsLineBreak(s[i])
  {
    if s == [] || IsLineBreak(s[0]) then 0 else 1 + LineEnd(s[1..])
  }

  /** The text before the first boundary is a single line. */
  lemma {:induction false} LineEndIsFirst(s: string)
    ensures IsSingleLine(s[..LineEnd(s)])
    decreases |s|
  {
    if s != [] && !IsLineBreak(s[0]) {
      LineEndIsFirst(s[1..]);
      assert s[..LineEnd(s)] == [s[0]] + s[1..][..LineEnd(s[1..])];
    }
  }

  /** Where the next line starts after the boundary at `i`; "\r\n" is one
      boundary of two characters. */
  function NextLineStart(s: string, i: nat): (n: nat)
    requires i < |s| && IsLineBreak(s[i])
    ensures i < n <= |s| && n <= i + 2
    ensures forall k :: i <= k < n ==> IsLineBreak(s[k])
  {
    if s[i] == '\r' && i + 1 < |s| && s[i + 1] == '\n' then i + 2 else i + 1
  }

  /** `s.splitlines()`: the lines of `s` without their boundaries; a final
      boundary does not open an empty last line, and "" has no lines. */
  function SplitLines(s: string): (lines: seq<string>)
    ensures s == [] <==> lines == []
    ensures |lines| <= |s|
    decreases |s|
  {
    if s == [] then []
    else
      var i := LineEnd(s);
      if i == |s| then [s]
      else [s[..i]] + SplitLines(s[NextLineStart(s, i)..])
  }

  /** The lines `splitlines()` produces hold no boundary. */
  lemma {:induction false} SplitLinesAreLines(s: string)
    ensures forall k :: 0 <= k < |SplitLines(s)| ==> IsSingleLine(SplitLines(s)[k])
    decreases |s|
  {
    if s != [] {
      var i := LineEnd(s);
      LineEndIsFirst(s);
      if i < |s| {
        var rest := s[NextLineStart(s, i)..];
        SplitLinesAreLines(rest);
        var lines := SplitLines(s);
        assert lines == [s[..i]] + SplitLines(rest);
        forall k | 0 <= k < |lines| ensures IsSingleLine(lines[k]) {
          if k > 0 { assert lines[k] == SplitLines(rest)[k - 1]; }
        }
      } else {
        assert s[..i] == s;
      }
    }
  }

  /** `t.lstrip()`: `t` without its leading whitespace. */
  function LStrip(t: string): (r: string)
    ensures |r| <= |t|
    ensures r != [] ==> !IsSpace(r[0])
  {
    if t != [] && IsSpace(t[0]) then LStrip(t[1..]) else t
  }

  /** `lstrip()` keeps a suffix, and all it drops is whitespace. */
  lemma {:induction false} LStripDropsLeadingSpace(t: string)
    ensures LStrip(t) == t[|t| - |LStrip(t)|..]
    ensures forall k :: 0 <= k < |t| - |LStrip(t)| ==> IsSpace(t[k])
    decreases |t|
  {
    if t != [] && IsSpace(t[0]) {
      LStripDropsLeadingSpace(t[1..]);
    }
  }

  /** `not t.strip()`: `t` is empty or whitespace only, which is exactly
      when stripping the leading whitespace leaves nothing. */
  predicate IsBlank(t: string): (b: bool)
    ensures b <==> LStrip(t) == []
  {
    LStripDropsLeadingSpace(t);
    forall k :: 0 <= k < |t| ==> IsSpace(t[k])
  }
}
