/**
  `format_notebook`: one pass over the cells of a notebook that leaves
  non-code and blank cells alone, counts magic cells as skipped and cells
  the formatter raised on as errored, and replaces the source of every cell
  the formatter changed. The notebook is the array of its cells; writing it
  back to its file is the returned flag `written`.
 */
module Notebook {
  import opened PyText
  import opened Classifier
  import opened Formatter

  /** A cell as `cell.get("cell_type")` and `cell.get("source")` see it:
      `None` when the key is missing or holds null. */
  datatype Cell = Cell(cellType: Option<string>, source: Option<string>)

  /** What the pass does with one cell. */
  datatype Outcome = Ignored | Skipped | Errored | Unchanged | Changed(text: string)

  /** The dictionary `format_notebook` returns. */
  datatype Stats = Stats(changed: nat, skipped: nat, errored: nat)

  /** `cell.get("source") or ""`. */
  function SourceText(cell: Cell): (r: string)
    ensures cell.source.Some? ==> r == cell.source.value
    ensures r == [] <==> cell.source == None || cell.source == Some([])
  {
    match cell.source
    case Some(s) => s
    case None => ""
  }

  predicate IsCodeCell(cell: Cell) {
    cell.cellType == Some("code")
  }

  /** A cell the pass looks at: a code cell whose source is not blank. */
  predicate IsFormattable(cell: Cell) {
    IsCodeCell(cell) && !IsBlank(SourceText(cell))
  }

  /** The fate of one cell, in the order the loop body decides it. */
  function CellOutcome(cell: Cell, tools: Toolchain): (r: Outcome)
    ensures r == Ignored <==> !IsFormattable(cell)
    ensures r == Skipped <==> IsFormattable(cell) && SkipsFormatting(SourceText(cell))
    ensures r == Errored <==>
      && IsFormattable(cell)
      && !SkipsFormatting(SourceText(cell))
      && FormatPythonSource(SourceText(cell), tools).FormatFailed?
    ensures r.Changed? ==> r.text != SourceText(cell) && cell.source == Some(SourceText(cell))
    ensures r.Changed? && EndsWithNewline(SourceText(cell)) ==> EndsWithNewline(r.text)
  {
    if !IsFormattable(cell) then Ignored
    else if SkipsFormatting(SourceText(cell)) then Skipped
    else
      match FormatPythonSource(SourceText(cell), tools)
      case FormatFailed(_) => Errored
      case FormatOk(f) => if f.changed then Changed(f.text) else Unchanged
  }

  /** The one counter an outcome increments, if any. */
  function Count(stats: Stats, outcome: Outcome): Stats {
    match outcome
    case Skipped => stats.(skipped := stats.skipped + 1)
    case Errored => stats.(errored := stats.errored + 1)
    case Changed(_) => stats.(changed := stats.changed + 1)
    case _ => stats
  }

  /** The outcome of every cell, in document order. */
  function Outcomes(cells: seq<Cell>, tools: Toolchain): seq<Outcome> {
    seq(|cells|, i requires 0 <= i < |cells| => CellOutcome(cells[i], tools))
  }

  /** The counters after the loop has gone through `outcomes` in order. */
  function Tally(outcomes: seq<Outcome>): (r: Stats)
    ensures r.changed + r.skipped + r.errored <= |outcomes|
    decreases |outcomes|
  {
    if outcomes == [] then Stats(0, 0, 0)
    else Count(Tally(outcomes[..|outcomes| - 1]), outcomes[|outcomes| - 1])
  }

  function Plus(x: Stats, y: Stats): Stats {
    Stats(x.changed + y.changed, x.skipped + y.skipped, x.errored + y.errored)
  }

  /** The number of code cells with a non-blank source. */
  function FormattableCount(cells: seq<Cell>): nat
    decreases |cells|
  {
    if cells == [] then 0
    else FormattableCount(cells[..|cells| - 1]) + (if IsFormattable(cells[|cells| - 1]) then 1 else 0)
  }

  /** The source a cell holds after the pass. */
  function Updated(cell: Cell, outcome: Outcome): Cell {
    if outcome.Changed? then cell.(source := Some(outcome.text)) else cell
  }

  /** The notebook after the pass: same cells, same order, same types; a
      cell differs exactly when it is a non-blank code cell without magic
      lines that the formatter accepted and changed, and then its source is
      the formatter's text. */
  function Reformatted(cells: seq<Cell>, tools: Toolchain): (r: seq<Cell>)
    ensures |r| == |cells|
    ensures forall i :: 0 <= i < |cells| ==> r[i].cellType == cells[i].cellType
    ensures forall i :: 0 <= i < |cells| ==>
      (r[i] != cells[i] <==>
        && IsFormattable(cells[i])
        && !SkipsFormatting(SourceText(cells[i]))
        && FormatPythonSource(SourceText(cells[i]), tools).FormatOk?
        && FormatPythonSource(SourceText(cells[i]), tools).value.changed)
    ensures forall i :: 0 <= i < |cells| && r[i] != cells[i] ==>
      r[i].source == Some(FormatPythonSource(SourceText(cells[i]), tools).value.text)
  {
    seq(|cells|, i requires 0 <= i < |cells| => Updated(cells[i], CellOutcome(cells[i], tools)))
  }

  /** The body of the loop of `format_notebook` for one cell, with its
      early `continue`s, up to the update it makes. */
  method FormatCell(cell: Cell, tools: Toolchain) returns (outcome: Outcome)
    ensures outcome == CellOutcome(cell, tools)
    ensures outcome.Changed? ==> outcome.text != SourceText(cell) && cell.source == Some(SourceText(cell))
  {
    if !IsCodeCell(cell) {
      return Ignored;
    }
    var source := SourceText(cell);
    if IsBlank(source) {
      return Ignored;
    }
    var skip := ShouldSkipBlackIsort(source);
    if skip {
      return Skipped;
    }
    var result := FormatPythonSource(source, tools);
    if result.FormatFailed? {
      return Errored;
    }
    if result.value.changed {
      return Changed(result.value.text);
    }
    return Unchanged;
  }

  /** The loop of `format_notebook` and its write decision. */
  method FormatNotebook(cells: array<Cell>, write: bool, tools: Toolchain) returns (stats: Stats, written: bool)
    modifies cells
    ensures cells[..] == Reformatted(old(cells[..]), tools)
    ensures stats == Tally(Outcomes(old(cells[..]), tools))
    ensures written <==> write && stats.changed > 0
  {
    ghost var before := cells[..];
    ghost var outcomes := Outcomes(before, tools);
    var changedCells, skippedCells, erroredCells := 0, 0, 0;
    for i := 0 to cells.Length
      invariant cells[..i] == Reformatted(before, tools)[..i]
      invariant forall k :: i <= k < cells.Length ==> cells[k] == before[k]
      invariant Stats(changedCells, skippedCells, erroredCells) == Tally(outcomes[..i])
    {
      assert outcomes[..i + 1][..i] == outcomes[..i];
      var outcome := FormatCell(cells[i], tools);
      match outcome
      case Skipped =>
        skippedCells := skippedCells + 1;
      case Errored =>
        erroredCells := erroredCells + 1;
      case Changed(text) =>
        cells[i] := cells[i].(source := Some(text));
        changedCells := changedCells + 1;
      case _ =>
    }
    assert outcomes[..cells.Length] == outcomes;
    stats := Stats(changedCells, skippedCells, erroredCells);
    written := write && changedCells > 0;
  }

  lemma CountPlus(x: Stats, y: Stats, outcome: Outcome)
    ensures Count(Plus(x, y), outcome) == Plus(x, Count(y, outcome))
  {
  }

  /** Counting is additive over consecutive runs of cells. */
  lemma {:induction false} TallyAppend(a: seq<Outcome>, b: seq<Outcome>)
    ensures Tally(a + b) == Plus(Tally(a), Tally(b))
    decreases |b|
  {
    if b == [] {
      assert a + b == a;
    } else {
      var b', last := b[..|b| - 1], b[|b| - 1];
      assert Tally(a + b) == Count(Tally(a + b'), last) by {
        assert (a + b)[..|a + b| - 1] == a + b';
        assert (a + b)[|a + b| - 1] == last;
      }
      TallyAppend(a, b');
      CountPlus(Tally(a), Tally(b'), last);
    }
  }

  /** The outcomes of a notebook are those of its parts, in order. */
  lemma OutcomesAppend(a: seq<Cell>, b: seq<Cell>, tools: Toolchain)
    ensures Outcomes(a + b, tools) == Outcomes(a, tools) + Outcomes(b, tools)
  {
  }

  /** A non-code cell or a blank code cell changes no counter, wherever it
      stands in the notebook. */
  lemma IgnoredCellCountsNothing(a: seq<Cell>, c: Cell, b: seq<Cell>, tools: Toolchain)
    requires !IsFormattable(c)
    ensures Tally(Outcomes(a + [c] + b, tools)) == Tally(Outcomes(a + b, tools))
  {
    var oa, ob := Outcomes(a, tools), Outcomes(b, tools);
    OutcomesAppend(a + [c], b, tools);
    OutcomesAppend(a, [c], tools);
    OutcomesAppend(a, b, tools);
    assert Outcomes([c], tools) == [Ignored];
    TallyAppend(oa + [Ignored], ob);
    TallyAppend(oa, [Ignored]);
    assert [Ignored][..0] == [];
    TallyAppend(oa, ob);
  }

  /** Each looked-at cell increments at most one counter, so the counters
      never add up to more than the number of non-blank code cells. */
  lemma {:induction false} TallyBound(cells: seq<Cell>, tools: Toolchain)
    ensures var s := Tally(Outcomes(cells, tools));
      s.changed + s.skipped + s.errored <= FormattableCount(cells)
    decreases |cells|
  {
    if cells != [] {
      var init := cells[..|cells| - 1];
      TallyBound(init, tools);
      var os := Outcomes(cells, tools);
      assert os[..|os| - 1] == Outcomes(init, tools);
    }
  }

  /** The changed counter is zero exactly when no outcome is a change. */
  lemma {:induction false} NoChangedCells(outcomes: seq<Outcome>)
    ensures Tally(outcomes).changed == 0 <==>
      forall i :: 0 <= i < |outcomes| ==> !outcomes[i].Changed?
    decreases |outcomes|
  {
    if outcomes != [] {
      var init := outcomes[..|outcomes| - 1];
      NoChangedCells(init);
      forall i | 0 <= i < |init| ensures init[i] == outcomes[i] { }
    }
  }

  /** The file is written (in write mode) exactly when the pass really
      altered the notebook: a zero changed counter means every cell is as it
      was read. */
  lemma ChangedIffRewritten(cells: seq<Cell>, tools: Toolchain)
    ensures Tally(Outcomes(cells, tools)).changed == 0 <==> Reformatted(cells, tools) == cells
  {
    var os := Outcomes(cells, tools);
    NoChangedCells(os);
    var r := Reformatted(cells, tools);
    if Tally(os).changed != 0 {
      var i :| 0 <= i < |cells| && os[i].Changed?;
      assert r[i] != cells[i];
    } else {
      forall i | 0 <= i < |cells| ensures r[i] == cells[i] {
        assert !os[i].Changed?;
      }
    }
  }

  /** Without isort and black every looked-at cell is skipped or errored:
      the missing-dependency error is caught per cell, nothing is changed
      and nothing is written. */
  lemma {:induction false} MissingToolchainErrorsEveryCell(cells: seq<Cell>, tools: Toolchain)
    requires tools.Missing?
    ensures var s := Tally(Outcomes(cells, tools));
      s.changed == 0 && s.skipped + s.errored == FormattableCount(cells)
    ensures Reformatted(cells, tools) == cells
    decreases |cells|
  {
    if cells != [] {
      var init := cells[..|cells| - 1];
      MissingToolchainErrorsEveryCell(init, tools);
      var os := Outcomes(cells, tools);
      assert os[..|os| - 1] == Outcomes(init, tools);
    }
    ChangedIffRewritten(cells, tools);
  }
}
