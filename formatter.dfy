/**
  `_format_python_source`: isort, then black, then the finishing steps
  (fallback on black's NothingChanged, restoring a dropped trailing "\n", and
  the `changed` flag). isort and black are foreign libraries; the model takes
  them as the parameter `Toolchain`, each already fixed to the profile the
  source uses (isort profile "black", line length 88; black line length 88,
  target Python 3.10).
 */
module Formatter {

  datatype Option<T> = None | Some(value: T)

  /** What `black.format_file_contents` produces when it does not raise. */
  datatype StyleOutput = NothingChanged | Restyled(text: string)

  /** The two libraries: `Missing` when importing them fails; otherwise
      `sortImports` is `isort.code` and `style` is
      `black.format_file_contents`, each `None` when it raises. */
  datatype Toolchain =
    | Missing
    | Installed(sortImports: string -> Option<string>, style: string -> Option<StyleOutput>)

  /** Why formatting a cell raised. */
  datatype FormatError = MissingDependencies | SortRaised | StyleRaised

  /** The pair `(formatted_source, changed)`. */
  datatype Formatted = Formatted(text: string, changed: bool)

  datatype FormatResult = FormatFailed(error: FormatError) | FormatOk(value: Formatted)

  /** `s.endswith("\n")`: only "\n", not the other line boundaries. */
  predicate EndsWithNewline(s: string) {
    |s| > 0 && s[|s| - 1] == '\n'
  }

  /** The text black leaves: the import-sorted text itself when black
      reports that nothing changed. */
  function StyledText(sorted: string, out: StyleOutput): (r: string)
    ensures out.Restyled? ==> r == out.text
    ensures r == sorted <==> out.NothingChanged? || out == Restyled(sorted)
  {
    match out
    case NothingChanged => sorted
    case Restyled(text) => text
  }

  /** Adds back the trailing "\n" that the formatter dropped, and only that. */
  function RestoreTrailingNewline(source: string, formatted: string): (r: string)
    ensures EndsWithNewline(source) ==> EndsWithNewline(r)
    ensures EndsWithNewline(formatted) || !EndsWithNewline(source) ==> r == formatted
    ensures |formatted| <= |r| <= |formatted| + 1 && r[..|formatted|] == formatted
    ensures EndsWithNewline(source) && !EndsWithNewline(formatted) ==> |r| == |formatted| + 1
  {
    if EndsWithNewline(source) && !EndsWithNewline(formatted) then formatted + "\n" else formatted
  }

  /** The finishing steps, once isort produced `sorted` and black produced
      `out`. */
  function Finalise(source: string, sorted: string, out: StyleOutput): (r: Formatted)
    ensures r.changed <==> r.text != source
    ensures r.text == StyledText(sorted, out) || r.text == StyledText(sorted, out) + "\n"
    ensures EndsWithNewline(source) ==> EndsWithNewline(r.text)
    ensures EndsWithNewline(StyledText(sorted, out)) || !EndsWithNewline(source) ==>
      r.text == StyledText(sorted, out)
    ensures EndsWithNewline(source) && !EndsWithNewline(StyledText(sorted, out)) ==>
      r.text == StyledText(sorted, out) + "\n"
  {
    var formatted := RestoreTrailingNewline(source, StyledText(sorted, out));
    Formatted(formatted, formatted != source)
  }

  /** `_format_python_source`, with every exception it can raise as a
      `FormatFailed`. A missing library raises for every cell alike. */
  function FormatPythonSource(source: string, tools: Toolchain): (r: FormatResult)
    ensures tools.Missing? ==> r == FormatFailed(MissingDependencies)
    ensures r.FormatOk? ==> (r.value.changed <==> r.value.text != source)
    ensures r.FormatOk? && EndsWithNewline(source) ==> EndsWithNewline(r.value.text)
    ensures r.FormatOk? <==>
      tools.Installed? && tools.sortImports(source).Some? && tools.style(tools.sortImports(source).value).Some?
    ensures r.FormatOk? ==>
      r.value == Finalise(source, tools.sortImports(source).value, tools.style(tools.sortImports(source).value).value)
    ensures r.FormatFailed? && tools.Installed? ==>
      r.error == (if tools.sortImports(source).None? then SortRaised else StyleRaised)
  {
    match tools
    case Missing => FormatFailed(MissingDependencies)
    case Installed(sortImports, style) =>
      match sortImports(source)
      case None => FormatFailed(SortRaised)
      case Some(sorted) =>
        match style(sorted)
        case None => FormatFailed(StyleRaised)
        case Some(out) => FormatOk(Finalise(source, sorted, out))
  }

  /** Formatting the result again with passes that give back the same text
      (the formatter strips the final "\n" again, say) reports no change:
      restoring the newline makes the result a fixed point. */
  lemma FinaliseIsStable(source: string, sorted: string, out: StyleOutput, sorted2: string, out2: StyleOutput)
    requires StyledText(sorted2, out2) == StyledText(sorted, out)
    ensures var first := Finalise(source, sorted, out);
      Finalise(first.text, sorted2, out2) == Formatted(first.text, false)
  {
  }

  /** Source that isort and black both leave alone is reported unchanged. */
  lemma NormalizedSourceIsUnchanged(source: string)
    ensures Finalise(source, source, NothingChanged) == Formatted(source, false)
    ensures Finalise(source, source, Restyled(source)) == Formatted(source, false)
  {
  }
}
