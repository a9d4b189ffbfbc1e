# format_notebooks, modelled in Dafny

`tools/format_notebooks.py` formats the code cells of Jupyter notebooks with
isort and black. It leaves out cells that use IPython magics (`%`, `%%`) or
shell escapes (`!`), because black cannot parse them. It reports per file how
many cells changed, were skipped or raised an error. In check mode it exits
with status 1 when some notebook needs formatting.

This project models the logic of that script that belongs to it and not to
its libraries. isort, black and the notebook reader and writer are
parameters or are left out.

- `py_text.dfy`, module `PyText`: the Python string primitives the script
  relies on, stated exactly. `str.isspace` for one character,
  `str.splitlines()` (all its line boundaries, with "\r\n" as one boundary),
  `str.lstrip()`, and the blank test `not s.strip()`.
- `classifier.dfy`, module `Classifier`: `_should_skip_black_isort`. It is a
  method with the source's loop and early return. It is proved equal to a
  definition on the characters alone: some `%` or `!` is preceded, back to
  the start of its line, only by whitespace that is not a line boundary.
  From that follows that lines without a marker have no effect on the answer.
- `formatter.dfy`, module `Formatter`: `_format_python_source`. isort and
  black are the `Toolchain` parameter. `Missing` stands for the failed
  import. Otherwise the toolchain holds two functions, each returning `None`
  where the library raises. The finishing steps are pure functions: falling
  back to the sorted text on `NothingChanged`, restoring a dropped trailing
  "\n", and the `changed` flag.
- `notebook.dfy`, module `Notebook`: `format_notebook`. The notebook is an
  `array<Cell>` that the method's loop updates in place. The method also
  returns the three counters and the write decision. The method is proved
  against the functions `Reformatted` (the cells afterwards) and `Tally` (the
  counters). The lemmas prove what those functions promise.
- `cli.dfy`, module `Cli`: the exit status at the end of `main`, computed
  from the collected notebook list and each file's counters.

A missing isort or black does not end the run. `_format_python_source`
raises `RuntimeError` when the libraries cannot be imported (lines 28-31),
and `format_notebook` catches every `Exception` per cell (lines 68-72). So
every non-blank, non-magic code cell is counted as errored, and the run goes
on. `Notebook.MissingToolchainErrorsEveryCell` states this behaviour.

## Model

| member | source | states |
|---|---|---|
| PyText.LineEnd | tools/format_notebooks.py:14 | where the first line of a text ends: within the text, and at a line boundary unless it is the end of the text |
| PyText.LineEndIsFirst | tools/format_notebooks.py:14 | no line boundary comes before that point, so the first line holds no boundary |
| PyText.SplitLines | tools/format_notebooks.py:14 | `splitlines()`: splits at every Python line boundary ("\r\n" as one), with no empty last line after a final boundary; there are no lines exactly for the empty text, and never more lines than characters |
| PyText.SplitLinesAreLines | tools/format_notebooks.py:14 | the lines `splitlines()` yields contain no line boundary |
| PyText.LStrip | tools/format_notebooks.py:15 | `lstrip()`: the result is no longer than the line and does not start with whitespace |
| PyText.LStripDropsLeadingSpace | tools/format_notebooks.py:15 | `lstrip()` yields a suffix of the line, and everything it drops is whitespace |
| PyText.IsBlank | tools/format_notebooks.py:61 | `not source.strip()`: the source is whitespace only, which holds exactly when `lstrip()` leaves nothing |
| Classifier.ShouldSkipBlackIsort | tools/format_notebooks.py:10-18 | returns true iff some line of `splitlines()` starts with `%` or `!` after `lstrip()`, and equivalently iff some marker in the source is preceded on its line only by whitespace |
| Classifier.AnyMagicLineIff | tools/format_notebooks.py:14-18 | scanning the lines from the first finds a magic line iff some line is one |
| Classifier.MagicLineIff | tools/format_notebooks.py:15-16 | on one line, `lstrip` followed by `startswith` finds exactly a marker preceded by whitespace only |
| Classifier.MarkerAcrossBreaks | tools/format_notebooks.py:14-17 | a run of line boundaries splits the search for a magic line into the text before it and the text after it, in both directions |
| Classifier.SkipsFirstLine | tools/format_notebooks.py:14-17 | the loop's answer is: the first line is magic, or the rest after the first boundary is skipped |
| Classifier.MarkerAcrossFirstBoundary | tools/format_notebooks.py:14-17 | the character-level property splits the same way at the first line boundary, "\r\n" included |
| Classifier.SingleLineStep | tools/format_notebooks.py:14-17 | for a source without any line boundary, the classifier's answer is the character-level property |
| Classifier.FirstLineStep | tools/format_notebooks.py:14-17 | the induction step: agreement on the text after the first boundary gives agreement on the whole |
| Classifier.SkipsIffIndentedMarker | tools/format_notebooks.py:14-18 | the classifier's answer equals the character-level definition, for every source, including "\r\n" and the other Python line boundaries |
| Classifier.SkipsJoinedLines | tools/format_notebooks.py:14-18 | joining two sources with any line boundary is skipped iff one of them is, so the content of the other lines is irrelevant |
| Classifier.EmptySourceNotSkipped | tools/format_notebooks.py:14-18 | the empty source is never classified as magic |
| Formatter.StyledText | tools/format_notebooks.py:39-42 | the text after black: black's own text when it returns one; it equals the import-sorted text exactly when black reports `NothingChanged` or returns that same text |
| Formatter.RestoreTrailingNewline | tools/format_notebooks.py:44-45 | if the input ends with "\n" so does the output; the formatter's text is returned unmodified when it already ends with "\n" or the input does not; otherwise exactly one "\n" is appended |
| Formatter.Finalise | tools/format_notebooks.py:39-47 | `changed` is exactly text inequality with the input; the text is black's text (the import-sorted text on `NothingChanged`), unmodified when it ends with "\n" or the input does not, and with one "\n" appended otherwise |
| Formatter.FormatPythonSource | tools/format_notebooks.py:25-47 | fails with the dependency error whenever the libraries are missing; succeeds iff isort and black both return; on success the result is `Finalise` of the source, isort's text and black's output, so `changed` is text inequality and a trailing "\n" of the input is kept; a failure is the dependency error, isort's error or black's error, in that order |
| Formatter.FinaliseIsStable | tools/format_notebooks.py:44-47 | when the passes give back the same text again, formatting the result reports no change, because the restored newline makes it a fixed point |
| Formatter.NormalizedSourceIsUnchanged | tools/format_notebooks.py:39-47 | source that isort and black leave as it is gets `changed = false`, whether black reports `NothingChanged` or returns the same text |
| Notebook.SourceText | tools/format_notebooks.py:60 | `cell.get("source") or ""`: the stored source when there is one; empty exactly when the source is missing, null or empty |
| Notebook.CellOutcome | tools/format_notebooks.py:57-76 | a cell is ignored iff it is not a non-blank code cell; skipped iff it is one and has a magic line; errored iff it is one without magic lines and the formatter raised; a change carries a text that differs from the stored source and keeps its trailing "\n" |
| Notebook.Tally | tools/format_notebooks.py:52-76 | the three counters after the loop; each outcome increments at most one, so their sum never exceeds the number of cells |
| Notebook.Reformatted | tools/format_notebooks.py:56-76 | the pass keeps the cell count, order and types; a cell changes iff it is a non-blank code cell without magic lines that the formatter accepted and reported changed, and its new source is exactly the formatter's text |
| Notebook.FormatCell | tools/format_notebooks.py:57-76 | the loop body decides one cell's outcome as `CellOutcome` does; a change always carries a text that differs from the cell's stored source |
| Notebook.FormatNotebook | tools/format_notebooks.py:50-85 | the loop leaves the array equal to `Reformatted` of its old contents, returns the counters `Tally` of the old cells' outcomes, and writes iff `write` and `changed_cells > 0` |
| Notebook.TallyAppend | tools/format_notebooks.py:52-76 | the counters of consecutive runs of cells add up |
| Notebook.IgnoredCellCountsNothing | tools/format_notebooks.py:56-62 | inserting a non-code or blank code cell anywhere leaves all three counters as they were |
| Notebook.TallyBound | tools/format_notebooks.py:64-76 | changed + skipped + errored is at most the number of code cells with non-blank source |
| Notebook.NoChangedCells | tools/format_notebooks.py:74-76 | `changed_cells` is zero iff no cell's outcome is a change |
| Notebook.ChangedIffRewritten | tools/format_notebooks.py:74-79 | `changed_cells` is zero iff the notebook after the pass equals the notebook as read, so a write happens only when it alters the file |
| Notebook.MissingToolchainErrorsEveryCell | tools/format_notebooks.py:68-72 | without isort and black, no cell changes and every non-blank code cell is skipped or errored; the notebook is left as read |
| Cli.ExitStatus | tools/format_notebooks.py:111-126 | the status is 0, 1 or 2; it is 2 exactly when no notebook was collected, and 1 only in check mode |
| Cli.ExitCode | tools/format_notebooks.py:111-126 | status 2 iff no notebook was collected; 1 iff some were, `--check` is set and some file has `changed_cells > 0`; 0 otherwise |
| Cli.CheckFailsIffSomeNotebookChanges | tools/format_notebooks.py:115-126 | in check mode the status is 1 iff some collected notebook would be altered by a run in write mode |
| Cli.WriteModeSucceeds | tools/format_notebooks.py:115-126 | in write mode, once a notebook was found, the status is 0 whatever the per-cell outcomes |

## Left out

- Reading and writing notebooks (`nbformat.read`, `nbformat.write`) and the JSON format are not modelled. The notebook is the array of its cells, and the write is the returned flag `written`. An unreadable file, which makes `nbformat.read` raise and end the run, is not modelled either.
- isort and black are not modelled: they are foreign libraries. Each is a function in the `Toolchain` parameter, fixed to the profile the script passes (isort profile "black" and line length 88; black line length 88, target Python 3.10).
- The import probe at lines 25-31 is not modelled as an import. It is the `Missing` toolchain, which reaches the cells as a per-cell error.
- Collecting the notebooks in `main` is not modelled: `is_dir`, `is_file`, `rglob`, the `.ipynb` suffix test and `Path` sorting are filesystem operations. The collected list is an input of `Cli.ExitCode`.
- `argparse`, the per-file summary line on stdout and the "No notebooks found." message on stderr are not modelled: they are I/O only.
- Cli.ExitCode: takes the per-file counters as a list aligned with the notebook list, rather than calling `format_notebook` inside its loop, because the per-file pass is `Notebook.FormatNotebook` on a notebook that the model does not load from disk.
- Cells are values in an array, not shared dictionaries. Two list entries that alias one cell object are not modelled, and neither are cell fields other than `cell_type` and `source`.
- A `source` stored as a list of strings is not modelled: nbformat joins it into one string when it reads version 4.
- `IsSpace` and `IsLineBreak` list Python's whitespace and line-boundary characters explicitly. They are not derived from the Unicode database at run time.
