/**
  The sweep of `run_benchmark` in vsbenchmark/core.py: test cases grouped by
  format, the progress total, and one result row per pass of every case at
  every resolution.

  Creating the blank clip for a resolution and format, and running and
  timing one pass, are foreign calls; they are the two fields of `Runtime`.
 */
module Sweep {
  import opened Wrappers
  import opened ParamGrid
  import opened Generator
  import opened Seqs

  /** A measured number; a pass that raised records NaN. */
  datatype Measure = Num(value: real) | NaN

  /** One result row: Function, Resolution, Format, Params, Pass, Time, FPS. */
  datatype Row = Row(
    functionName: string,
    resolution: Resolution,
    format: Format,
    params: Table,
    pass: nat,
    time: Measure,
    fps: Measure)

  /** What `benchmark_function` returns for a pass that did not raise. */
  datatype Timing = Timing(elapsed: real, fps: real)

  /** The foreign calls of the sweep: whether `BlankClip` succeeds for a
      resolution and format, and the timing of pass `n` of a case at a
      resolution (`None` when the function or the render raises). */
  datatype Runtime = Runtime(
    clipOk: (Resolution, Format) -> bool,
    timing: (TestCase, Resolution, nat) -> Option<Timing>)

  /** The benchmark object: its configuration and its current results. */
  datatype Benchmark = Benchmark(cfg: Config, results: seq<Row>)

  /** The cases of one format, in order. */
  function CasesOf(cases: seq<TestCase>, fmt: Format): (r: seq<TestCase>)
    ensures forall tc :: tc in r <==> tc in cases && tc.format == fmt
    ensures |r| <= |cases|
  {
    if |cases| == 0 then []
    else
      var init, last := cases[..|cases| - 1], cases[|cases| - 1];
      assert cases == init + [last];
      CasesOf(init, fmt) + (if last.format == fmt then [last] else [])
  }

  /** `format_to_test_cases.get(fmt, [])`. */
  function GroupOf(groups: map<Format, seq<TestCase>>, fmt: Format): seq<TestCase>
  {
    if fmt in groups then groups[fmt] else []
  }

  /** `format_to_test_cases`: each case appended, in order, to the list of its format. */
  function GroupByFormat(cases: seq<TestCase>): map<Format, seq<TestCase>>
  {
    if |cases| == 0 then map[]
    else
      var groups := GroupByFormat(cases[..|cases| - 1]);
      var tc := cases[|cases| - 1];
      groups[tc.format := GroupOf(groups, tc.format) + [tc]]
  }

  /** The group of a format holds exactly that format's cases, in generation order. */
  lemma {:induction false} GroupByFormatIsFilter(cases: seq<TestCase>, fmt: Format)
    ensures GroupOf(GroupByFormat(cases), fmt) == CasesOf(cases, fmt)
  {
    if |cases| > 0 {
      var init := cases[..|cases| - 1];
      var tc := cases[|cases| - 1];
      GroupByFormatIsFilter(init, fmt);
    }
  }

  /** The progress total contributed by one resolution: cases × passes per format. */
  function FormatsTotal(formats: seq<Format>, groups: map<Format, seq<TestCase>>, passes: int): int
  {
    if |formats| == 0 then 0
    else |GroupOf(groups, formats[0])| * passes + FormatsTotal(formats[1..], groups, passes)
  }

  /** `total_tests`: the sum over resolutions and formats of cases × passes. */
  function TotalTests(resolutions: seq<Resolution>, formats: seq<Format>, groups: map<Format, seq<TestCase>>, passes: int): int
  {
    if |resolutions| == 0 then 0
    else FormatsTotal(formats, groups, passes) + TotalTests(resolutions[1..], formats, groups, passes)
  }

  /** The total is the number of resolutions times the per-resolution total. */
  lemma {:induction false} TotalTestsIsProduct(resolutions: seq<Resolution>, formats: seq<Format>, groups: map<Format, seq<TestCase>>, passes: int)
    ensures TotalTests(resolutions, formats, groups, passes) == |resolutions| * FormatsTotal(formats, groups, passes)
  {
    if |resolutions| > 0 {
      TotalTestsIsProduct(resolutions[1..], formats, groups, passes);
      var x := FormatsTotal(formats, groups, passes);
      assert |resolutions| * x == x + (|resolutions| - 1) * x;
    }
  }

  /** How often `x` occurs in `formats`. */
  function Occurrences(formats: seq<Format>, x: Format): nat
  {
    if |formats| == 0 then 0 else (if formats[0] == x then 1 else 0) + Occurrences(formats[1..], x)
  }

  /** The number of cases of each format, summed over `formats`. */
  function CasesPerFormat(formats: seq<Format>, cases: seq<TestCase>): nat
  {
    if |formats| == 0 then 0 else |CasesOf(cases, formats[0])| + CasesPerFormat(formats[1..], cases)
  }

  /** A format listed once occurs once. */
  lemma {:induction false} OccursOnce(formats: seq<Format>, x: Format)
    requires x in formats
    requires Distinct(formats)
    ensures Occurrences(formats, x) == 1
  {
    if formats[0] == x {
      NotOccurring(formats[1..], x);
    } else {
      OccursOnce(formats[1..], x);
    }
  }

  /** A format not listed does not occur. */
  lemma {:induction false} NotOccurring(formats: seq<Format>, x: Format)
    requires x !in formats
    ensures Occurrences(formats, x) == 0
  {
    if |formats| > 0 {
      NotOccurring(formats[1..], x);
    }
  }

  /** Peeling the last case off every per-format count. */
  lemma {:induction false} CasesPerFormatStep(formats: seq<Format>, cases: seq<TestCase>)
    requires |cases| > 0
    ensures CasesPerFormat(formats, cases)
            == Occurrences(formats, cases[|cases| - 1].format) + CasesPerFormat(formats, cases[..|cases| - 1])
  {
    if |formats| > 0 {
      CasesPerFormatStep(formats[1..], cases);
    }
  }

  /** With distinct formats covering every case, the per-format counts add up to all cases. */
  lemma {:induction false} CasesPerFormatCountsAll(formats: seq<Format>, cases: seq<TestCase>)
    requires Distinct(formats)
    requires forall tc :: tc in cases ==> tc.format in formats
    ensures CasesPerFormat(formats, cases) == |cases|
  {
    if |cases| == 0 {
      ZeroCases(formats, cases);
    } else {
      var init, last := cases[..|cases| - 1], cases[|cases| - 1];
      assert last in cases;
      assert forall tc :: tc in init ==> tc in cases;
      CasesPerFormatStep(formats, cases);
      OccursOnce(formats, last.format);
      CasesPerFormatCountsAll(formats, init);
    }
  }

  /** No cases, no per-format counts. */
  lemma {:induction false} ZeroCases(formats: seq<Format>, cases: seq<TestCase>)
    requires |cases| == 0
    ensures CasesPerFormat(formats, cases) == 0
  {
    if |formats| > 0 {
      ZeroCases(formats[1..], cases);
    }
  }

  /** The sizes of the groups of `formats`, summed. */
  function GroupSizes(formats: seq<Format>, groups: map<Format, seq<TestCase>>): nat
  {
    if |formats| == 0 then 0 else |GroupOf(groups, formats[0])| + GroupSizes(formats[1..], groups)
  }

  /** The per-resolution total is the summed group sizes times the passes. */
  lemma {:induction false} FormatsTotalFactors(formats: seq<Format>, groups: map<Format, seq<TestCase>>, passes: int)
    ensures FormatsTotal(formats, groups, passes) == GroupSizes(formats, groups) * passes
  {
    if |formats| > 0 {
      FormatsTotalFactors(formats[1..], groups, passes);
      var a, b := |GroupOf(groups, formats[0])|, GroupSizes(formats[1..], groups);
      assert (a + b) * passes == a * passes + b * passes;
    }
  }

  /** Grouped or filtered, the per-format case counts agree. */
  lemma {:induction false} GroupSizesAreCounts(formats: seq<Format>, cases: seq<TestCase>)
    ensures GroupSizes(formats, GroupByFormat(cases)) == CasesPerFormat(formats, cases)
  {
    if |formats| > 0 {
      GroupByFormatIsFilter(cases, formats[0]);
      GroupSizesAreCounts(formats[1..], cases);
    }
  }

  /** When the formats are distinct and every case has one of them, the total
      is resolutions × cases × passes: every case is counted once per pass at
      every resolution. */
  lemma TotalCountsEveryCase(resolutions: seq<Resolution>, formats: seq<Format>, cases: seq<TestCase>, passes: int)
    requires Distinct(formats)
    requires forall tc :: tc in cases ==> tc.format in formats
    ensures TotalTests(resolutions, formats, GroupByFormat(cases), passes) == |resolutions| * (|cases| * passes)
  {
    TotalTestsIsProduct(resolutions, formats, GroupByFormat(cases), passes);
    FormatsTotalFactors(formats, GroupByFormat(cases), passes);
    GroupSizesAreCounts(formats, cases);
    CasesPerFormatCountsAll(formats, cases);
  }

  /** `len(range(passes))`. */
  function PassCount(passes: int): nat
  {
    if passes > 0 then passes else 0
  }

  /** The row of pass `pass` of case `tc` in the cell (`res`, `fmt`): the
      timing when the pass succeeded, NaN in both columns when it raised. */
  function PassRow(tc: TestCase, res: Resolution, fmt: Format, pass: nat, outcome: Option<Timing>): (r: Row)
    ensures r.time.NaN? <==> outcome.None?
    ensures r.fps.NaN? <==> outcome.None?
  {
    match outcome
    case Some(t) => Row(tc.name, res, fmt, tc.params, pass, Num(t.elapsed), Num(t.fps))
    case None => Row(tc.name, res, fmt, tc.params, pass, NaN, NaN)
  }

  /** Row `r` reports on case `tc` at resolution `res`. */
  predicate RowOf(r: Row, tc: TestCase, res: Resolution)
  {
    r.functionName == tc.name && r.params == tc.params && r.resolution == res
  }

  /** The passes of one case at one resolution: exactly one row per pass,
      numbered from 1, a failed pass recorded with NaN rather than dropped. */
  function CaseRows(tc: TestCase, res: Resolution, fmt: Format, passes: int, timing: (TestCase, Resolution, nat) -> Option<Timing>): (r: seq<Row>)
    ensures |r| == PassCount(passes)
    ensures forall i :: 0 <= i < |r| ==> r[i].pass == i + 1 && RowOf(r[i], tc, res) && r[i].format == fmt
    ensures forall i :: 0 <= i < |r| ==>
              (r[i].time.NaN? <==> timing(tc, res, i + 1).None?) && (r[i].fps.NaN? <==> timing(tc, res, i + 1).None?)
    ensures forall i :: 0 <= i < |r| && timing(tc, res, i + 1).Some? ==>
              r[i].time == Num(timing(tc, res, i + 1).value.elapsed) && r[i].fps == Num(timing(tc, res, i + 1).value.fps)
  {
    var r := seq(PassCount(passes), i requires 0 <= i < PassCount(passes) => PassRow(tc, res, fmt, i + 1, timing(tc, res, i + 1)));
    assert forall i :: 0 <= i < |r| ==> r[i].pass == i + 1 && RowOf(r[i], tc, res) && r[i].format == fmt by {
      forall i | 0 <= i < |r| ensures r[i].pass == i + 1 && RowOf(r[i], tc, res) && r[i].format == fmt {
        var row := PassRow(tc, res, fmt, i + 1, timing(tc, res, i + 1));
        assert r[i] == row;
      }
    }
    r
  }

  /** The rows of all cases of one format at one resolution, case by case. */
  function CasesRows(cases: seq<TestCase>, res: Resolution, fmt: Format, passes: int, timing: (TestCase, Resolution, nat) -> Option<Timing>): (r: seq<Row>)
    ensures |r| == |cases| * PassCount(passes)
    ensures forall row :: row in r ==>
              row.format == fmt && 1 <= row.pass <= PassCount(passes) && exists tc :: tc in cases && RowOf(row, tc, res)
  {
    if |cases| == 0 then []
    else
      var first := CaseRows(cases[0], res, fmt, passes, timing);
      assert forall row :: row in first ==> RowOf(row, cases[0], res) && row.format == fmt && 1 <= row.pass <= PassCount(passes) by {
        forall row | row in first ensures RowOf(row, cases[0], res) && row.format == fmt && 1 <= row.pass <= PassCount(passes) {
          var i :| 0 <= i < |first| && first[i] == row;
        }
      }
      var rest := CasesRows(cases[1..], res, fmt, passes, timing);
      assert |first + rest| == |cases| * PassCount(passes) by {
        assert |cases| * PassCount(passes) == PassCount(passes) + (|cases| - 1) * PassCount(passes);
      }
      first + rest
  }

  /** The rows of one (resolution, format) cell: none when the format has no
      cases, none when its clip cannot be created, else every pass of every case. */
  function CellRows(groups: map<Format, seq<TestCase>>, res: Resolution, fmt: Format, passes: int, rt: Runtime): (r: seq<Row>)
    ensures !rt.clipOk(res, fmt) ==> r == []
    ensures rt.clipOk(res, fmt) ==> |r| == |GroupOf(groups, fmt)| * PassCount(passes)
    ensures forall row :: row in r ==>
              && row.resolution == res && row.format == fmt && rt.clipOk(res, fmt)
              && 1 <= row.pass <= PassCount(passes)
              && exists tc :: tc in GroupOf(groups, fmt) && RowOf(row, tc, res)
  {
    var cases := GroupOf(groups, fmt);
    if |cases| == 0 then []
    else if !rt.clipOk(res, fmt) then []
    else CasesRows(cases, res, fmt, passes, rt.timing)
  }

  /** The rows of one resolution, format by format. */
  function ResolutionRows(groups: map<Format, seq<TestCase>>, res: Resolution, formats: seq<Format>, passes: int, rt: Runtime): (r: seq<Row>)
    ensures forall row :: row in r ==>
              && row.resolution == res && row.format in formats && rt.clipOk(res, row.format)
              && 1 <= row.pass <= PassCount(passes)
              && exists tc :: tc in GroupOf(groups, row.format) && RowOf(row, tc, res)
  {
    if |formats| == 0 then []
    else CellRows(groups, res, formats[0], passes, rt) + ResolutionRows(groups, res, formats[1..], passes, rt)
  }

  /** The rows of the whole sweep, resolution by resolution. */
  function SweepRows(groups: map<Format, seq<TestCase>>, resolutions: seq<Resolution>, formats: seq<Format>, passes: int, rt: Runtime): (r: seq<Row>)
    ensures forall row :: row in r ==>
              && row.resolution in resolutions && row.format in formats && rt.clipOk(row.resolution, row.format)
              && 1 <= row.pass <= PassCount(passes)
              && exists tc :: tc in GroupOf(groups, row.format) && RowOf(row, tc, row.resolution)
  {
    if |resolutions| == 0 then []
    else ResolutionRows(groups, resolutions[0], formats, passes, rt) + SweepRows(groups, resolutions[1..], formats, passes, rt)
  }

  /** When every clip is created, a resolution yields its share of the total. */
  lemma {:induction false} ResolutionRowsCount(groups: map<Format, seq<TestCase>>, res: Resolution, formats: seq<Format>, passes: int, rt: Runtime)
    requires forall fmt :: rt.clipOk(res, fmt)
    requires passes >= 0
    ensures |ResolutionRows(groups, res, formats, passes, rt)| == FormatsTotal(formats, groups, passes)
  {
    if |formats| > 0 {
      ResolutionRowsCount(groups, res, formats[1..], passes, rt);
    }
  }

  /** When every clip is created and passes is not negative, the sweep yields
      exactly `total_tests` rows. */
  lemma {:induction false} SweepRowsCount(groups: map<Format, seq<TestCase>>, resolutions: seq<Resolution>, formats: seq<Format>, passes: int, rt: Runtime)
    requires forall res, fmt :: rt.clipOk(res, fmt)
    requires passes >= 0
    ensures |SweepRows(groups, resolutions, formats, passes, rt)| == TotalTests(resolutions, formats, groups, passes)
  {
    if |resolutions| > 0 {
      ResolutionRowsCount(groups, resolutions[0], formats, passes, rt);
      SweepRowsCount(groups, resolutions[1..], formats, passes, rt);
    }
  }

  /** `run_benchmark`: generate the cases, group them by format, and when the
      total is zero stop with the previous results untouched; otherwise the
      results become the rows of the sweep, each from a created clip, each
      of a generated case of its format, with passes numbered from 1. */
  function RunBenchmark(b: Benchmark, env: Env, rt: Runtime): (r: Benchmark)
    ensures r.cfg == b.cfg
    ensures var groups := GroupByFormat(GenerateTestCases(b.cfg, env));
      TotalTests(b.cfg.resolutions, b.cfg.formats, groups, b.cfg.passes) == 0 ==> r.results == b.results
    ensures var groups := GroupByFormat(GenerateTestCases(b.cfg, env));
      TotalTests(b.cfg.resolutions, b.cfg.formats, groups, b.cfg.passes) != 0 ==>
        forall row :: row in r.results ==>
          && row.resolution in b.cfg.resolutions && rt.clipOk(row.resolution, row.format)
          && 1 <= row.pass <= b.cfg.passes
          && exists tc :: tc in GenerateTestCases(b.cfg, env) && tc.format == row.format && RowOf(row, tc, row.resolution)
  {
    var cases := GenerateTestCases(b.cfg, env);
    var groups := GroupByFormat(cases);
    if TotalTests(b.cfg.resolutions, b.cfg.formats, groups, b.cfg.passes) == 0 then b
    else
      SweepRowsOfCases(cases, b.cfg.resolutions, b.cfg.formats, b.cfg.passes, rt);
      Benchmark(b.cfg, SweepRows(groups, b.cfg.resolutions, b.cfg.formats, b.cfg.passes, rt))
  }

  /** Every row of a sweep over the grouped cases reports on one of those
      cases, of the row's own format. */
  lemma SweepRowsOfCases(cases: seq<TestCase>, resolutions: seq<Resolution>, formats: seq<Format>, passes: int, rt: Runtime)
    ensures forall row :: row in SweepRows(GroupByFormat(cases), resolutions, formats, passes, rt) ==>
              exists tc :: tc in cases && tc.format == row.format && RowOf(row, tc, row.resolution)
  {
    var groups := GroupByFormat(cases);
    forall row | row in SweepRows(groups, resolutions, formats, passes, rt)
      ensures exists tc :: tc in cases && tc.format == row.format && RowOf(row, tc, row.resolution)
    {
      var tc :| tc in GroupOf(groups, row.format) && RowOf(row, tc, row.resolution);
      GroupByFormatIsFilter(cases, row.format);
    }
  }

  /** Every pass of a case among `cases` has its row. */
  lemma {:induction false} CasesRowsComplete(cases: seq<TestCase>, res: Resolution, fmt: Format, passes: int,
                                             timing: (TestCase, Resolution, nat) -> Option<Timing>, tc: TestCase, p: nat)
    requires tc in cases && 1 <= p <= PassCount(passes)
    ensures exists row :: row in CasesRows(cases, res, fmt, passes, timing) && RowOf(row, tc, res) && row.format == fmt && row.pass == p
  {
    var first := CaseRows(cases[0], res, fmt, passes, timing);
    var rest := CasesRows(cases[1..], res, fmt, passes, timing);
    assert CasesRows(cases, res, fmt, passes, timing) == first + rest;
    if cases[0] == tc {
      assert first[p - 1] in first + rest;
    } else {
      assert tc in cases[1..];
      CasesRowsComplete(cases[1..], res, fmt, passes, timing, tc, p);
      var row :| row in rest && RowOf(row, tc, res) && row.format == fmt && row.pass == p;
      assert row in first + rest;
    }
  }

  /** At one resolution, every pass of every case of a listed format whose clip is created has its row. */
  lemma {:induction false} ResolutionRowsComplete(groups: map<Format, seq<TestCase>>, res: Resolution, formats: seq<Format>,
                                                  passes: int, rt: Runtime, fmt: Format, tc: TestCase, p: nat)
    requires fmt in formats && rt.clipOk(res, fmt) && tc in GroupOf(groups, fmt) && 1 <= p <= PassCount(passes)
    ensures exists row :: row in ResolutionRows(groups, res, formats, passes, rt) && RowOf(row, tc, res) && row.format == fmt && row.pass == p
  {
    var cell := CellRows(groups, res, formats[0], passes, rt);
    var rest := ResolutionRows(groups, res, formats[1..], passes, rt);
    assert ResolutionRows(groups, res, formats, passes, rt) == cell + rest;
    if formats[0] == fmt {
      CasesRowsComplete(GroupOf(groups, fmt), res, fmt, passes, rt.timing, tc, p);
      var row :| row in cell && RowOf(row, tc, res) && row.format == fmt && row.pass == p;
      assert row in cell + rest;
    } else {
      ResolutionRowsComplete(groups, res, formats[1..], passes, rt, fmt, tc, p);
      var row :| row in rest && RowOf(row, tc, res) && row.format == fmt && row.pass == p;
      assert row in cell + rest;
    }
  }

  /** Over the sweep, every pass of every case at every listed resolution and
      format whose clip is created has its row, whatever happens to other clips. */
  lemma {:induction false} SweepRowsComplete(groups: map<Format, seq<TestCase>>, resolutions: seq<Resolution>, formats: seq<Format>,
                                             passes: int, rt: Runtime, res: Resolution, fmt: Format, tc: TestCase, p: nat)
    requires res in resolutions && fmt in formats && rt.clipOk(res, fmt) && tc in GroupOf(groups, fmt) && 1 <= p <= PassCount(passes)
    ensures exists row :: row in SweepRows(groups, resolutions, formats, passes, rt) && RowOf(row, tc, res) && row.format == fmt && row.pass == p
  {
    var here := ResolutionRows(groups, resolutions[0], formats, passes, rt);
    var rest := SweepRows(groups, resolutions[1..], formats, passes, rt);
    assert SweepRows(groups, resolutions, formats, passes, rt) == here + rest;
    if resolutions[0] == res {
      ResolutionRowsComplete(groups, res, formats, passes, rt, fmt, tc, p);
      var row :| row in here && RowOf(row, tc, res) && row.format == fmt && row.pass == p;
      assert row in here + rest;
    } else {
      SweepRowsComplete(groups, resolutions[1..], formats, passes, rt, res, fmt, tc, p);
      var row :| row in rest && RowOf(row, tc, res) && row.format == fmt && row.pass == p;
      assert row in here + rest;
    }
  }

  /** A listed format contributes its cases × passes to the per-resolution total. */
  lemma {:induction false} FormatsTotalAtLeast(formats: seq<Format>, groups: map<Format, seq<TestCase>>, passes: int, fmt: Format)
    requires fmt in formats && passes >= 0
    ensures FormatsTotal(formats, groups, passes) >= |GroupOf(groups, fmt)| * passes
  {
    FormatsTotalFactors(formats, groups, passes);
    GroupSizesAtLeast(formats, groups, fmt);
    MulMonotone(|GroupOf(groups, fmt)|, GroupSizes(formats, groups), passes);
  }

  /** Multiplying by a non-negative factor keeps the order. */
  lemma MulMonotone(a: int, b: int, c: int)
    requires a <= b && c >= 0
    ensures a * c <= b * c
  {
  }

  /** A listed format's group is part of the summed group sizes. */
  lemma {:induction false} GroupSizesAtLeast(formats: seq<Format>, groups: map<Format, seq<TestCase>>, fmt: Format)
    requires fmt in formats
    ensures GroupSizes(formats, groups) >= |GroupOf(groups, fmt)|
  {
    if formats[0] != fmt {
      GroupSizesAtLeast(formats[1..], groups, fmt);
    }
  }

  /** With passes positive, a listed resolution and a listed format with a case make the total positive. */
  lemma TotalPositive(resolutions: seq<Resolution>, formats: seq<Format>, groups: map<Format, seq<TestCase>>, passes: int, fmt: Format)
    requires |resolutions| > 0 && fmt in formats && passes > 0 && |GroupOf(groups, fmt)| > 0
    ensures TotalTests(resolutions, formats, groups, passes) > 0
  {
    TotalTestsIsProduct(resolutions, formats, groups, passes);
    FormatsTotalAtLeast(formats, groups, passes, fmt);
    MulPositive(|GroupOf(groups, fmt)|, passes);
    MulPositive(|resolutions|, FormatsTotal(formats, groups, passes));
  }

  /** A clip that cannot be created loses only its own cell: for every listed
      resolution and format whose clip is created, every generated case of that
      format is recorded once for each pass 1..passes. */
  lemma RunRecordsCreatedCells(b: Benchmark, env: Env, rt: Runtime, res: Resolution, fmt: Format, tc: TestCase, p: nat)
    requires res in b.cfg.resolutions && fmt in b.cfg.formats && rt.clipOk(res, fmt)
    requires tc in GenerateTestCases(b.cfg, env) && tc.format == fmt
    requires 1 <= p <= b.cfg.passes
    ensures exists row :: row in RunBenchmark(b, env, rt).results && RowOf(row, tc, res) && row.format == fmt && row.pass == p
  {
    var cfg := b.cfg;
    var cases := GenerateTestCases(cfg, env);
    GroupedSweepComplete(cases, cfg.resolutions, cfg.formats, cfg.passes, rt, res, fmt, tc, p);
    assert RunBenchmark(b, env, rt).results == SweepRows(GroupByFormat(cases), cfg.resolutions, cfg.formats, cfg.passes, rt);
  }

  /** Grouping `cases` by format, a case of a listed format makes the total
      positive and each of its passes has a row at every listed resolution
      whose clip for that format is created. */
  lemma GroupedSweepComplete(cases: seq<TestCase>, resolutions: seq<Resolution>, formats: seq<Format>, passes: int,
                             rt: Runtime, res: Resolution, fmt: Format, tc: TestCase, p: nat)
    requires res in resolutions && fmt in formats && rt.clipOk(res, fmt)
    requires tc in cases && tc.format == fmt && 1 <= p <= passes
    ensures TotalTests(resolutions, formats, GroupByFormat(cases), passes) > 0
    ensures exists row :: row in SweepRows(GroupByFormat(cases), resolutions, formats, passes, rt)
              && RowOf(row, tc, res) && row.format == fmt && row.pass == p
  {
    var groups := GroupByFormat(cases);
    GroupByFormatIsFilter(cases, fmt);
    assert tc in GroupOf(groups, fmt);
    TotalPositive(resolutions, formats, groups, passes, fmt);
    SweepRowsComplete(groups, resolutions, formats, passes, rt, res, fmt, tc, p);
  }

  /** The product of two positive numbers is positive. */
  lemma MulPositive(a: int, b: int)
    requires a > 0 && b > 0
    ensures a * b > 0
  {
  }

  /** When every clip is created and passes is positive, a run with test
      cases and resolutions records exactly resolutions × cases × passes rows
      (formats listed once each). */
  lemma RunRecordsEveryPass(b: Benchmark, env: Env, rt: Runtime)
    requires forall res, fmt :: rt.clipOk(res, fmt)
    requires b.cfg.passes > 0
    requires Distinct(b.cfg.formats)
    ensures |b.cfg.resolutions| > 0 && |GenerateTestCases(b.cfg, env)| > 0 ==>
              |RunBenchmark(b, env, rt).results| == |b.cfg.resolutions| * (|GenerateTestCases(b.cfg, env)| * b.cfg.passes)
  {
    var cfg := b.cfg;
    var cases := GenerateTestCases(cfg, env);
    if |cfg.resolutions| > 0 && |cases| > 0 {
      var groups := GroupByFormat(cases);
      var total := TotalTests(cfg.resolutions, cfg.formats, groups, cfg.passes);
      TotalCountsEveryCase(cfg.resolutions, cfg.formats, cases, cfg.passes);
      var n := |cases| * cfg.passes;
      MulPositive(|cases|, cfg.passes);
      MulPositive(|cfg.resolutions|, n);
      assert total > 0;
      assert RunBenchmark(b, env, rt).results == SweepRows(groups, cfg.resolutions, cfg.formats, cfg.passes, rt);
      SweepRowsCount(groups, cfg.resolutions, cfg.formats, cfg.passes, rt);
    }
  }
}
