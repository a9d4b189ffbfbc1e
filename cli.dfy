/**
  The end of `main`: once the notebooks are collected and each has been run
  through `format_notebook`, the process exit status. Collecting the paths
  (directories, globbing, sorting) and the argument parsing are not part of
  this model; the collected list and the per-file counters are inputs.
 */
module Cli {
  import opened Formatter
  import opened Notebook

  type Path = string

  /** Some file reported a non-zero `changed_cells`. */
  predicate AnyChanged(stats: seq<Stats>) {
    exists k :: 0 <= k < |stats| && stats[k].changed > 0
  }

  /** The status `main` returns, as a function of what it collected. */
  function ExitStatus(notebooks: seq<Path>, check: bool, stats: seq<Stats>): (r: int)
    ensures 0 <= r <= 2
    ensures r == 2 <==> notebooks == []
    ensures r == 1 ==> check
  {
    if notebooks == [] then 2
    else if check && AnyChanged(stats) then 1
    else 0
  }

  /** The counters of each notebook, in the order `main` processes them. */
  function TallyAll(contents: seq<seq<Cell>>, tools: Toolchain): (stats: seq<Stats>)
    ensures |stats| == |contents|
    ensures forall k :: 0 <= k < |contents| ==> stats[k] == Tally(Outcomes(contents[k], tools))
  {
    seq(|contents|, k requires 0 <= k < |contents| => Tally(Outcomes(contents[k], tools)))
  }

  /** The loop over the collected notebooks that sets
      `any_changes_needed`, and the status `main` returns; `stats[k]` is
      what `format_notebook` reported for `notebooks[k]`. */
  method ExitCode(notebooks: seq<Path>, check: bool, stats: seq<Stats>) returns (code: int)
    requires |stats| == |notebooks|
    ensures code == ExitStatus(notebooks, check, stats)
    ensures code == 2 <==> notebooks == []
    ensures code == 1 <==> notebooks != [] && check && exists k :: 0 <= k < |stats| && stats[k].changed > 0
    ensures code == 0 <==> notebooks != [] && (!check || forall k :: 0 <= k < |stats| ==> stats[k].changed == 0)
  {
    if |notebooks| == 0 {
      return 2;
    }
    var anyChangesNeeded := false;
    for k := 0 to |notebooks|
      invariant anyChangesNeeded <==> check && exists m :: 0 <= m < k && stats[m].changed > 0
    {
      if check && stats[k].changed > 0 {
        anyChangesNeeded := true;
      }
    }
    return if check && anyChangesNeeded then 1 else 0;
  }

  /** A run in check mode fails with status 1 exactly when some collected
      notebook would be rewritten by a run in write mode. */
  lemma CheckFailsIffSomeNotebookChanges(notebooks: seq<Path>, contents: seq<seq<Cell>>, tools: Toolchain)
    requires |contents| == |notebooks|
    ensures ExitStatus(notebooks, true, TallyAll(contents, tools)) == 1 <==>
      notebooks != [] && exists k :: 0 <= k < |contents| && Reformatted(contents[k], tools) != contents[k]
  {
    var stats := TallyAll(contents, tools);
    if notebooks != [] && AnyChanged(stats) {
      var k :| 0 <= k < |stats| && stats[k].changed > 0;
      ChangedIffRewritten(contents[k], tools);
    }
    if exists k :: 0 <= k < |contents| && Reformatted(contents[k], tools) != contents[k] {
      var k :| 0 <= k < |contents| && Reformatted(contents[k], tools) != contents[k];
      ChangedIffRewritten(contents[k], tools);
      assert stats[k].changed > 0;
    }
  }

  /** In write mode the run succeeds whatever the cells were, once at least
      one notebook was found: per-cell errors never reach the exit status. */
  lemma WriteModeSucceeds(notebooks: seq<Path>, stats: seq<Stats>)
    requires notebooks != []
    ensures ExitStatus(notebooks, false, stats) == 0
  {
  }
}
