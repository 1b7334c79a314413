/**
  `compare_functions` of vsbenchmark/core.py: the metric guard, the mean of
  the chosen column per (Resolution, Format, Function, Params) group, and
  the rows ranked first (`rank(method='min') == 1`) within each
  (Resolution, Format) cell.

  `compare_functions` looks the column up by `metric.value`, which for a flag
  created with `auto()` is the integer 1 or 2, while the result columns are
  labelled "Time" and "FPS". `CompareFunctionsAsWritten` models that lookup
  and `CompareFunctions` the evidently intended one.
 */
module Comparison {
  import opened Wrappers
  import opened ParamGrid
  import opened Generator
  import opened Sweep
  import opened Metrics
  import opened Seqs

  /** The key of `groupby(['Resolution', 'Format', 'Function', 'Params'])`. */
  datatype GroupKey = GroupKey(resolution: Resolution, format: Format, functionName: string, params: Table)

  function KeyOf(r: Row): GroupKey
  {
    GroupKey(r.resolution, r.format, r.functionName, r.params)
  }

  /** A numeric column of the results. */
  datatype Column = TimeColumn | FpsColumn

  function ColumnValue(r: Row, c: Column): Measure
  {
    match c
    case TimeColumn => r.time
    case FpsColumn => r.fps
  }

  /** A label used to select a column: a string, or an integer. */
  datatype Label = Name(name: string) | IntLabel(value: int)

  /** The numeric column a label selects; the results' labels are all strings,
      and the numeric ones are "Time" and "FPS" (`None` is pandas' KeyError). */
  function ResolveColumn(l: Label): Option<Column>
  {
    match l
    case Name(n) => if n == "Time" then Some(TimeColumn) else if n == "FPS" then Some(FpsColumn) else None
    case IntLabel(_) => None
  }

  /** One line of the grouped summary: a group and the mean of its column. */
  datatype Summary = Summary(key: GroupKey, mean: Measure)

  /** The non-NaN values of column `c` in the rows of group `k`, in row order. */
  function GroupValues(rows: seq<Row>, k: GroupKey, c: Column): seq<real>
  {
    if |rows| == 0 then []
    else
      (if KeyOf(rows[0]) == k && ColumnValue(rows[0], c).Num? then [ColumnValue(rows[0], c).value] else [])
      + GroupValues(rows[1..], k, c)
  }

  function Sum(xs: seq<real>): real
  {
    if |xs| == 0 then 0.0 else xs[0] + Sum(xs[1..])
  }

  /** pandas' `mean`: NaN is skipped, and a group with no number has mean NaN. */
  function Mean(xs: seq<real>): Measure
  {
    if |xs| == 0 then NaN else Num(Sum(xs) / (|xs| as real))
  }

  /** The key of every row, in row order. */
  function RowKeys(rows: seq<Row>): seq<GroupKey>
  {
    seq(|rows|, i requires 0 <= i < |rows| => KeyOf(rows[i]))
  }

  /** `seen` followed by the keys of `rows` not seen before, in order of first appearance. */
  function AddKeys(rows: seq<Row>, seen: seq<GroupKey>): (r: seq<GroupKey>)
    requires Distinct(seen)
    ensures Distinct(r)
    ensures forall k :: k in r <==> k in seen || k in RowKeys(rows)
  {
    if |rows| == 0 then seen
    else
      var k := KeyOf(rows[0]);
      assert RowKeys(rows) == [k] + RowKeys(rows[1..]);
      AddKeys(rows[1..], if k in seen then seen else seen + [k])
  }

  /** The groups of the results: every key of a row, each once. */
  function GroupKeys(rows: seq<Row>): (r: seq<GroupKey>)
    ensures Distinct(r)
    ensures forall k :: k in r <==> k in RowKeys(rows)
  {
    AddKeys(rows, [])
  }

  /** `groupby([...])[column].mean()`: one summary line per group. */
  function Summarize(rows: seq<Row>, c: Column): seq<Summary>
  {
    var keys := GroupKeys(rows);
    seq(|keys|, i requires 0 <= i < |keys| => Summary(keys[i], Mean(GroupValues(rows, keys[i], c))))
  }

  /** The summary holds exactly one line per group of the results, carrying that group's mean. */
  lemma SummarizeGroups(rows: seq<Row>, c: Column)
    ensures forall i, j :: 0 <= i < j < |Summarize(rows, c)| ==> Summarize(rows, c)[i].key != Summarize(rows, c)[j].key
    ensures forall k :: k in SummaryKeys(Summarize(rows, c)) <==> k in RowKeys(rows)
    ensures forall s :: s in Summarize(rows, c) ==> s.mean == Mean(GroupValues(rows, s.key, c))
  {
    assert SummaryKeys(Summarize(rows, c)) == GroupKeys(rows);
  }

  /** The group of every summary line, in order. */
  function SummaryKeys(summary: seq<Summary>): seq<GroupKey>
  {
    seq(|summary|, i requires 0 <= i < |summary| => summary[i].key)
  }

  /** `a` ranks strictly ahead of `b`: lower for an ascending rank, higher for a descending one. */
  predicate Ahead(minimize: bool, a: real, b: real)
  {
    if minimize then a < b else a > b
  }

  /** `s` and `t` lie in the same (Resolution, Format) cell. */
  predicate SameCell(s: Summary, t: Summary)
  {
    s.key.resolution == t.key.resolution && s.key.format == t.key.format
  }

  /** The number of lines of `all` in the cell of `s` whose mean ranks strictly ahead of `v`. */
  function AheadCount(all: seq<Summary>, s: Summary, v: real, minimize: bool): nat
  {
    if |all| == 0 then 0
    else
      (if SameCell(all[0], s) && all[0].mean.Num? && Ahead(minimize, all[0].mean.value, v) then 1 else 0)
      + AheadCount(all[1..], s, v, minimize)
  }

  /** `rank(method='min')` within the cell: one more than the number strictly
      ahead, so ties share the smallest rank; NaN gets no rank. */
  function Rank(all: seq<Summary>, s: Summary, minimize: bool): Option<nat>
  {
    if s.mean.NaN? then None else Some(1 + AheadCount(all, s, s.mean.value, minimize))
  }

  /** The lines of `pending` whose rank among `all` is 1, in order. */
  function SelectBest(pending: seq<Summary>, all: seq<Summary>, minimize: bool): (r: seq<Summary>)
    ensures forall s :: s in r <==> s in pending && Rank(all, s, minimize) == Some(1)
  {
    if |pending| == 0 then []
    else
      (if Rank(all, pending[0], minimize) == Some(1) then [pending[0]] else [])
      + SelectBest(pending[1..], all, minimize)
  }

  /** The best mean in the cell of `s` among the lines of `all`: the minimum
      or the maximum of the non-NaN means, `None` when there is none. */
  function CellBest(all: seq<Summary>, s: Summary, minimize: bool): (b: Option<real>)
    ensures b.None? <==> forall t :: t in all && SameCell(t, s) ==> t.mean.NaN?
    ensures b.Some? ==> exists t :: t in all && SameCell(t, s) && t.mean == Num(b.value)
    ensures b.Some? ==> forall t :: t in all && SameCell(t, s) && t.mean.Num? ==> !Ahead(minimize, t.mean.value, b.value)
  {
    if |all| == 0 then None
    else
      var rest := CellBest(all[1..], s, minimize);
      var head := all[0];
      assert forall t :: t in all <==> t == head || t in all[1..];
      if !(SameCell(head, s) && head.mean.Num?) then rest
      else if rest.None? || Ahead(minimize, head.mean.value, rest.value) then Some(head.mean.value)
      else rest
  }

  /** Nothing in the cell ranks strictly ahead of `v` exactly when the count is zero. */
  lemma {:induction false} AheadCountZero(all: seq<Summary>, s: Summary, v: real, minimize: bool)
    ensures AheadCount(all, s, v, minimize) == 0 <==>
              forall t :: t in all && SameCell(t, s) && t.mean.Num? ==> !Ahead(minimize, t.mean.value, v)
  {
    if |all| > 0 {
      AheadCountZero(all[1..], s, v, minimize);
      assert forall t :: t in all <==> t == all[0] || t in all[1..];
    }
  }

  /** The rows kept in a cell are exactly those whose mean equals the cell's
      minimum (ascending) or maximum (descending); every tie is kept. */
  lemma SelectedIffCellBest(summary: seq<Summary>, minimize: bool, s: Summary)
    ensures s in SelectBest(summary, summary, minimize) <==>
              s in summary && s.mean.Num? && CellBest(summary, s, minimize) == Some(s.mean.value)
  {
    var selected := s in SelectBest(summary, summary, minimize);
    assert selected <==> s in summary && Rank(summary, s, minimize) == Some(1);
    if s in summary && s.mean.Num? {
      var v := s.mean.value;
      assert Rank(summary, s, minimize) == Some(1) <==> AheadCount(summary, s, v, minimize) == 0;
      var b := CellBest(summary, s, minimize);
      assert b.Some?;
      BestIsUnbeaten(summary, s, v, b.value, minimize);
    }
  }

  /** With the cell's best `b` at hand, nothing ranks ahead of `v` exactly when `v` is `b`. */
  lemma BestIsUnbeaten(summary: seq<Summary>, s: Summary, v: real, b: real, minimize: bool)
    requires s in summary && s.mean == Num(v)
    requires CellBest(summary, s, minimize) == Some(b)
    ensures AheadCount(summary, s, v, minimize) == 0 <==> b == v
  {
    AheadCountZero(summary, s, v, minimize);
    var t :| t in summary && SameCell(t, s) && t.mean == Num(b);
    assert SameCell(s, s);
    if AheadCount(summary, s, v, minimize) == 0 {
      assert !Ahead(minimize, b, v);
      assert !Ahead(minimize, v, b);
    }
  }

  /** A cell with at least one non-NaN mean keeps at least one row. */
  lemma EveryCellHasBest(summary: seq<Summary>, minimize: bool, s: Summary)
    requires s in summary && s.mean.Num?
    ensures exists w :: w in SelectBest(summary, summary, minimize) && SameCell(w, s)
  {
    var b := CellBest(summary, s, minimize);
    var w :| w in summary && SameCell(w, s) && w.mean == Num(b.value);
    assert CellBest(summary, w, minimize) == b by {
      CellBestOfCell(summary, s, w, minimize);
    }
    SelectedIffCellBest(summary, minimize, w);
  }

  /** Two lines of one cell share the cell's best. */
  lemma {:induction false} CellBestOfCell(all: seq<Summary>, s: Summary, w: Summary, minimize: bool)
    requires SameCell(w, s)
    ensures CellBest(all, w, minimize) == CellBest(all, s, minimize)
  {
    if |all| > 0 {
      CellBestOfCell(all[1..], s, w, minimize);
    }
  }

  /** Why a comparison fails: a metric other than TIME or FPS, or a column label the results do not have. */
  datatype CompareError = InvalidMetric | KeyError(missing: Label)

  /** What a comparison shows: nothing when there are no results, else the best lines. */
  datatype Shown = NoResults | Best(rows: seq<Summary>)

  /** The shared shape of both versions: the guard, the empty-results case,
      the column lookup, then the rows ranked first in their cell. */
  function CompareBy(results: seq<Row>, metric: Metric, column: Label): Result<Shown, CompareError>
  {
    if !IsComparable(metric) then Failure(InvalidMetric)
    else if |results| == 0 then Success(NoResults)
    else
      match ResolveColumn(column)
      case None => Failure(KeyError(column))
      case Some(c) =>
        var summary := Summarize(results, c);
        Success(Best(SelectBest(summary, summary, metric == TIME)))
  }

  /** `compare_functions` as written: the column is looked up by `metric.value`.
      The guard and the empty case behave as intended, but any results make
      the lookup fail on an integer label, which names no column. */
  function CompareFunctionsAsWritten(results: seq<Row>, metric: Metric): (r: Result<Shown, CompareError>)
    ensures !IsComparable(metric) ==> r == Failure(InvalidMetric)
    ensures IsComparable(metric) && |results| == 0 ==> r == Success(NoResults)
    ensures IsComparable(metric) && |results| > 0 ==> r.Failure? && r.error.KeyError? && r.error.missing.IntLabel?
  {
    CompareBy(results, metric, IntLabel(ValueOf(metric)))
  }

  /** With any results at all, the comparison as written never succeeds for
      either accepted metric: it asks for the column 1 (TIME) or 2 (FPS). */
  lemma AsWrittenNeverCompares(results: seq<Row>, metric: Metric)
    requires IsComparable(metric) && |results| > 0
    ensures CompareFunctionsAsWritten(results, metric) == Failure(KeyError(IntLabel(ValueOf(metric))))
    ensures ValueOf(metric) == (if metric == TIME then 1 else 2)
  {
  }

  /** The label of the column a comparable metric names: "Time" or "FPS". */
  function MetricLabel(metric: Metric): Label
  {
    if metric == TIME then Name("Time") else Name("FPS")
  }

  /** The column a comparable metric compares. */
  function MetricColumn(metric: Metric): Column
  {
    if metric == TIME then TimeColumn else FpsColumn
  }

  /** `compare_functions` with the intended column lookup. The metric is
      checked first, whatever the results; TIME and FPS are the only metrics
      accepted; no results show nothing; otherwise the rows shown are exactly
      the groups whose mean is the best of their cell, minimum for TIME and
      maximum for FPS, ties included. */
  function CompareFunctions(results: seq<Row>, metric: Metric): (r: Result<Shown, CompareError>)
    ensures !IsComparable(metric) ==> r == Failure(InvalidMetric)
    ensures IsComparable(metric) && |results| == 0 ==> r == Success(NoResults)
    ensures IsComparable(metric) && |results| > 0 ==>
              && r.Success? && r.value.Best?
              && var summary := Summarize(results, MetricColumn(metric));
                 forall s :: s in r.value.rows <==>
                   s in summary && s.mean.Num? && CellBest(summary, s, metric == TIME) == Some(s.mean.value)
  {
    var r := CompareBy(results, metric, MetricLabel(metric));
    if IsComparable(metric) && |results| > 0 then
      var summary := Summarize(results, MetricColumn(metric));
      assert r == Success(Best(SelectBest(summary, summary, metric == TIME)));
      assert forall s :: s in r.value.rows <==>
               s in summary && s.mean.Num? && CellBest(summary, s, metric == TIME) == Some(s.mean.value) by {
        forall s ensures s in r.value.rows <==>
                 s in summary && s.mean.Num? && CellBest(summary, s, metric == TIME) == Some(s.mean.value) {
          SelectedIffCellBest(summary, metric == TIME, s);
        }
      }
      r
    else r
  }
}
