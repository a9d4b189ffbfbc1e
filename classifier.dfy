/**
  The cell classifier `_should_skip_black_isort`: a code cell is unsafe for
  isort/black when one of its lines, once its leading whitespace is removed,
  starts with an IPython magic marker "%" (which also covers "%%") or a shell
  escape "!".
 */
module Classifier {
  import opened PyText

  predicate IsMarker(c: char) {
    c == '%' || c == '!'
  }

  /** `stripped.startswith(("%", "!", "%%"))`; "%%" starts with "%". */
  predicate StartsWithMarker(t: string) {
    |t| > 0 && IsMarker(t[0])
  }

  predicate IsMagicLine(line: string) {
    StartsWithMarker(LStrip(line))
  }

  /** What the classifier answers: some line of `source.splitlines()` is a
      magic or shell line. */
  predicate SkipsFormatting(source: string) {
    AnyMagicLine(SplitLines(source))
  }

  /** Some line, scanning from the first, is a magic line. */
  predicate AnyMagicLine(lines: seq<string>)
    decreases |lines|
  {
    lines != [] && (IsMagicLine(lines[0]) || AnyMagicLine(lines[1..]))
  }

  /** A marker at `j` preceded, back to the start `i` of its line, only by
      whitespace that is not a line boundary. */
  ghost predicate IndentedMarkerAt(s: string, i: int, j: int) {
    && 0 <= i <= j < |s|
    && (i == 0 || IsLineBreak(s[i - 1]))
    && (forall k :: i <= k < j ==> IsInlineSpace(s[k]))
    && IsMarker(s[j])
  }

  /** The same property stated on the characters of the source, without
      splitting it into lines. */
  ghost predicate HasIndentedMarker(s: string) {
    exists i, j :: IndentedMarkerAt(s, i, j)
  }

  /** The loop of `_should_skip_black_isort`, with its early return. */
  method ShouldSkipBlackIsort(cellSource: string) returns (skip: bool)
    ensures skip <==> (exists j :: 0 <= j < |SplitLines(cellSource)| && IsMagicLine(SplitLines(cellSource)[j]))
    ensures skip <==> SkipsFormatting(cellSource)
    ensures skip <==> HasIndentedMarker(cellSource)
  {
    var lines := SplitLines(cellSource);
    for k := 0 to |lines|
      invariant forall m :: 0 <= m < k ==> !IsMagicLine(lines[m])
    {
      var stripped := LStrip(lines[k]);
      if StartsWithMarker(stripped) {
        assert exists j :: 0 <= j < |SplitLines(cellSource)| && IsMagicLine(SplitLines(cellSource)[j]) by {
          assert IsMagicLine(lines[k]);
        }
        AnyMagicLineIff(lines);
        SkipsIffIndentedMarker(cellSource);
        return true;
      }
    }
    AnyMagicLineIff(lines);
    SkipsIffIndentedMarker(cellSource);
    return false;
  }

  /** The recursive scan finds a magic line iff there is one. */
  lemma {:induction false} AnyMagicLineIff(lines: seq<string>)
    ensures AnyMagicLine(lines) <==> exists k :: 0 <= k < |lines| && IsMagicLine(lines[k])
    decreases |lines|
  {
    if lines != [] {
      var tail := lines[1..];
      AnyMagicLineIff(tail);
      if exists k :: 0 <= k < |tail| && IsMagicLine(tail[k]) {
        var k :| 0 <= k < |tail| && IsMagicLine(tail[k]);
        assert lines[k + 1] == tail[k];
      }
      if exists k :: 0 <= k < |lines| && IsMagicLine(lines[k]) {
        var k :| 0 <= k < |lines| && IsMagicLine(lines[k]);
        if k > 0 { assert tail[k - 1] == lines[k]; }
      }
    }
  }

  /** Within a single line, `lstrip` then `startswith` finds exactly the
      markers preceded by whitespace only. */
  lemma {:induction false} MagicLineIff(line: string)
    requires IsSingleLine(line)
    ensures IsMagicLine(line) <==> HasIndentedMarker(line)
  {
    LStripDropsLeadingSpace(line);
    var r := LStrip(line);
    var d := |line| - |r|;
    if IsMagicLine(line) {
      assert IndentedMarkerAt(line, 0, d);
    }
    if HasIndentedMarker(line) {
      var i, j :| IndentedMarkerAt(line, i, j);
      assert i == 0;
      assert d == j;
    }
  }

  /** A non-empty run of line boundaries separates the text before it from
      the text after it: a marker line in the whole is a marker line in one
      of the two parts, and conversely. */
  lemma {:induction false} MarkerAcrossBreaks(a: string, m: string, b: string)
    requires |m| > 0 && forall k :: 0 <= k < |m| ==> IsLineBreak(m[k])
    ensures HasIndentedMarker(a + m + b) <==> HasIndentedMarker(a) || HasIndentedMarker(b)
  {
    var w := a + m + b;
    var len := |a| + |m|;
    if HasIndentedMarker(w) {
      var i, j :| IndentedMarkerAt(w, i, j);
      assert forall k :: |a| <= k < len ==> w[k] == m[k - |a|];
      assert !IsInlineSpace(w[len - 1]);
      assert j < |a| || len <= j;
      if j < |a| {
        assert IndentedMarkerAt(a, i, j) by {
          forall k | i <= k < j ensures IsInlineSpace(a[k]) {
            assert a[k] == w[k];
          }
          if i > 0 { assert a[i - 1] == w[i - 1]; }
          assert a[j] == w[j];
        }
      } else {
        assert len <= i;
        assert IndentedMarkerAt(b, i - len, j - len) by {
          forall k | i - len <= k < j - len ensures IsInlineSpace(b[k]) {
            assert b[k] == w[k + len];
          }
          if i - len > 0 { assert b[i - len - 1] == w[i - 1]; }
          assert b[j - len] == w[j];
        }
      }
    }
    if HasIndentedMarker(a) {
      var i, j :| IndentedMarkerAt(a, i, j);
      assert IndentedMarkerAt(w, i, j) by {
        forall k | i <= k < j ensures IsInlineSpace(w[k]) {
          assert w[k] == a[k];
        }
      }
    }
    if HasIndentedMarker(b) {
      var i, j :| IndentedMarkerAt(b, i, j);
      assert IndentedMarkerAt(w, i + len, j + len) by {
        forall k | i + len <= k < j + len ensures IsInlineSpace(w[k]) {
          assert w[k] == b[k - len];
        }
        if i == 0 { assert w[len - 1] == m[|m| - 1]; }
        else { assert w[i + len - 1] == b[i - 1]; }
        assert w[j + len] == b[j];
      }
    }
  }

  /** Splitting off the first line: the source is skipped iff its first
      line is a magic line or the text after the first boundary is skipped. */
  lemma SkipsFirstLine(s: string)
    requires LineEnd(s) < |s|
    ensures var i := LineEnd(s);
      SkipsFormatting(s) <==>
        IsMagicLine(s[..i]) || SkipsFormatting(s[NextLineStart(s, i)..])
  {
    var i := LineEnd(s);
    var tail := SplitLines(s[NextLineStart(s, i)..]);
    assert SplitLines(s) == [s[..i]] + tail;
    MagicLineCons(s[..i], tail);
  }

  lemma MagicLineCons(line: string, tail: seq<string>)
    ensures AnyMagicLine([line] + tail) <==> IsMagicLine(line) || AnyMagicLine(tail)
  {
    assert ([line] + tail)[1..] == tail;
  }

  /** One step of the induction: if the claim holds for the text after the
      first line boundary, it holds for the whole text. */
  lemma FirstLineStep(s: string)
    requires LineEnd(s) < |s|
    requires var rest := s[NextLineStart(s, LineEnd(s))..];
      SkipsFormatting(rest) <==> HasIndentedMarker(rest)
    ensures SkipsFormatting(s) <==> HasIndentedMarker(s)
  {
    var i := LineEnd(s);
    var n := NextLineStart(s, i);
    var head, rest := s[..i], s[n..];
    assert SkipsFormatting(s) <==> IsMagicLine(head) || SkipsFormatting(rest) by {
      SkipsFirstLine(s);
    }
    assert IsMagicLine(head) <==> HasIndentedMarker(head) by {
      LineEndIsFirst(s);
      MagicLineIff(head);
    }
    MarkerAcrossFirstBoundary(s);
  }

  /** The character-level property splits the same way at the first line
      boundary. */
  lemma MarkerAcrossFirstBoundary(s: string)
    requires LineEnd(s) < |s|
    ensures var i := LineEnd(s);
      HasIndentedMarker(s) <==>
        HasIndentedMarker(s[..i]) || HasIndentedMarker(s[NextLineStart(s, i)..])
  {
    var i := LineEnd(s);
    var n := NextLineStart(s, i);
    var sep := s[i..n];
    forall k | 0 <= k < |sep| ensures IsLineBreak(sep[k]) {
      assert sep[k] == s[i + k];
    }
    SplitInThree(s, i, n);
    MarkerAcrossBreaks(s[..i], sep, s[n..]);
  }

  lemma SplitInThree(s: string, i: nat, n: nat)
    requires i <= n <= |s|
    ensures s == s[..i] + s[i..n] + s[n..]
  {
    assert s[..n] == s[..i] + s[i..n];
  }

  /** A text without line boundaries is one line. */
  lemma SingleLineStep(s: string)
    requires s != [] && LineEnd(s) == |s|
    ensures SkipsFormatting(s) <==> HasIndentedMarker(s)
  {
    assert SkipsFormatting(s) <==> IsMagicLine(s) by {
      assert SplitLines(s) == [s] + [];
      MagicLineCons(s, []);
    }
    LineEndIsFirst(s);
    assert s[..LineEnd(s)] == s;
    MagicLineIff(s);
  }

  /** The classifier's answer does not depend on how the text is cut into
      lines: it is true iff some marker is preceded on its line by
      whitespace only. */
  lemma {:induction false} SkipsIffIndentedMarker(s: string)
    ensures SkipsFormatting(s) <==> HasIndentedMarker(s)
    decreases |s|
  {
    if s == [] {
      assert !HasIndentedMarker(s);
    } else if LineEnd(s) == |s| {
      SingleLineStep(s);
    } else {
      SkipsIffIndentedMarker(s[NextLineStart(s, LineEnd(s))..]);
      FirstLineStep(s);
    }
  }
  /** Only the magic lines decide: joining two sources with a line boundary
      skips the result iff either part is skipped, whatever the other part
      holds. */
  lemma SkipsJoinedLines(a: string, c: char, b: string)
    requires IsLineBreak(c)
    ensures SkipsFormatting(a + [c] + b) <==> SkipsFormatting(a) || SkipsFormatting(b)
  {
    SkipsIffIndentedMarker(a + [c] + b);
    SkipsIffIndentedMarker(a);
    SkipsIffIndentedMarker(b);
    MarkerAcrossBreaks(a, [c], b);
  }

  /** An empty cell has no lines, so it is never skipped. */
  lemma EmptySourceNotSkipped()
    ensures !SkipsFormatting("")
  {
  }
}
