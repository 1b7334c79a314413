# vs-benchmark core, modelled in Dafny

This project models the core of vs-benchmark, a VapourSynth benchmarking
helper. The model covers:

- how `VSBenchmark` expands a parameter grid and per-function overrides into
  test cases (`generate_test_cases` and `_normalize_params`);
- how `run_benchmark` sweeps those cases over resolutions, formats and passes
  into result rows;
- how `compare_functions` keeps the best-ranked group in every
  (Resolution, Format) cell;
- the `Metric` flag enumeration those operations take.

Modules, one per file:

- `Wrappers` (wrappers.dfy): `Option` and `Result`.
- `Seqs` (seqs.dfy): `Distinct`, and `FlatMap`, the list a nested `for` loop
  builds by appending.
- `Metrics` (metrics.dfy): `Metric` is the set of its single flags. `ValueOf`
  and `FromValue` are the `auto()` bit encoding and its inverse.
- `ParamGrid` (param_grid.dfy):
  - parameter values: a list, a dict, or a scalar identified by its `repr`;
  - ordered parameter tables, which keep dict insertion order;
  - `_normalize_params`;
  - the split into list parameters and other entries;
  - `itertools.product`, with its order stated as a mixed-radix rank.
- `Generator` (generator.dfy):
  - the configuration and its constructor defaults;
  - override precedence (exact format, then colour family, then the default
    grid);
  - the candidate parameter sets of one function and format;
  - `generate_test_cases`.
- `Sweep` (sweep.dfy):
  - grouping the cases by format;
  - the progress total;
  - the result rows of `run_benchmark`, including the early return when the
    total is zero.
- `Comparison` (comparison.dfy):
  - the metric guard of `compare_functions`;
  - the per-group mean that skips NaN;
  - `rank(method='min') == 1` within a cell;
  - the column lookup, both as written and corrected (see Findings).

Some calls leave the program. The model takes them as parameters:

- `Generator.Env`:
  - `family`: the colour family of a format (`get_color_family`);
  - `accepts`: whether a function binds a parameter set
    (`validate_function_params`).
- `Sweep.Runtime`:
  - `clipOk`: whether `BlankClip` can be created for a resolution and format;
  - `timing`: the timing of one pass, or `None` when the function or the
    render raised (`benchmark_function`).

## Model

| member | source | states |
|---|---|---|
| Metrics.ValueOf | vsbenchmark/utils.py:37-43 | The value of a combination is below 32. It is at least the bit of each member flag. |
| Metrics.ValueRoundTrip | vsbenchmark/utils.py:37-43 | Decoding the value of any combination gives back that combination. |
| Metrics.FromValue | vsbenchmark/utils.py:37-43 | Decoding a value below 32 into its flags. ValueRoundTrip and FromValueRoundTrip make it the inverse of ValueOf. |
| Metrics.FromValueRoundTrip | vsbenchmark/utils.py:37-43 | Every value below 32 is the value of the combination it decodes to. So the encoding is a bijection onto 0..31. |
| Metrics.ValueOfInjective | vsbenchmark/utils.py:37-43 | Two combinations have the same value exactly when they are equal. |
| Metrics.ValueZeroIffEmpty | vsbenchmark/utils.py:37-43 | Only the empty combination has value 0. |
| Metrics.InAll | vsbenchmark/utils.py:43 | Every single flag is a member of `ALL`. |
| Metrics.SinglesDisjoint | vsbenchmark/utils.py:38-42 | The five declared flags are distinct and pairwise disjoint. Each holds exactly one flag, and the i-th has value 2^i. |
| Metrics.AllIsUnionOfSingles | vsbenchmark/utils.py:43 | `ALL` is the union of the five flags. It holds every flag and has value 31. |
| Metrics.EveryMetricWithinAll | vsbenchmark/utils.py:43 | Every combination is contained in `ALL`. |
| Metrics.AllIsNotSingle | vsbenchmark/utils.py:43 | `ALL` has five members, so it is no single flag. |
| Metrics.IsComparable | vsbenchmark/core.py:306 | The guard of `compare_functions`. ComparableIffTimeOrFps states which metrics pass it. |
| Metrics.ComparableIffTimeOrFps | vsbenchmark/core.py:306-307 | The guard accepts a metric exactly when it is the single flag TIME or the single flag FPS. It refuses `ALL`, the empty combination and every other combination. |
| ParamGrid.Normalize | vsbenchmark/core.py:120-131 | Names and order are kept. A dict stays. A scalar outside the list parameters becomes a one-element list. A scalar that is a list parameter stays. A list stays. |
| ParamGrid.NormalizeIdempotent | vsbenchmark/core.py:120-131 | Normalising keeps the names. It leaves every entry outside the list parameters a list or a dict. Normalising twice equals normalising once. |
| ParamGrid.Entries | vsbenchmark/core.py:72-73 | Every entry on one side of the list-parameter split has that side's membership, and the side is no longer than the table. |
| ParamGrid.EntriesMember | vsbenchmark/core.py:72-73 | The entries on one side of the split are exactly the table's entries with that membership. |
| ParamGrid.EntriesUnique | vsbenchmark/core.py:72-73 | A side of a table with distinct names has distinct names. |
| ParamGrid.UniqueConcat | vsbenchmark/core.py:84-86 | Joining two tables with distinct names and no shared name gives distinct names. |
| ParamGrid.EntriesKeys | vsbenchmark/core.py:72-73 | The names on one side of the split are exactly the table's names with that membership. |
| ParamGrid.SplitLength | vsbenchmark/core.py:72-73 | Every entry goes to exactly one side. |
| ParamGrid.SplitKeepsKeys | vsbenchmark/core.py:72-73 | The two sides together hold exactly the table's names, and no name is on both sides. |
| ParamGrid.NormalizeSplit | vsbenchmark/core.py:70-73 | Normalising leaves the list-parameter entries exactly as they were. Splitting off the other entries commutes with normalising. |
| ParamGrid.Product | vsbenchmark/core.py:79-84 | The product has as many combinations as the product of the domain sizes. Each combination takes one value from each domain, in order. |
| ParamGrid.ProductOrder | vsbenchmark/core.py:83 | The combination picking positions `idx` stands at the mixed-radix rank of `idx`: the first domain varies slowest and the last fastest. |
| ParamGrid.ProductComplete | vsbenchmark/core.py:83 | Every combination of the domains occurs in the product. |
| Generator.NewConfig | vsbenchmark/core.py:35-42 | Zero passes become 3, and any other count is kept. A missing or empty grid becomes empty. Missing overrides become none. Missing list parameters become `['planes']`. The other fields are kept. |
| Generator.Applicable | vsbenchmark/core.py:53-68 | A non-empty exact-format override wins. Otherwise a non-empty colour-family override wins. Otherwise the default grid applies, including when the function has no overrides. |
| Generator.Candidates | vsbenchmark/core.py:70-116 | The candidate parameter sets of one applicable table. CandidatesShape and CandidatesComplete state that they are exactly the choices of one domain value per non-list entry, followed by the list parameters. CandidatesOrder states that they come in `itertools.product` order. CandidatesCount and CandidatesUnique give their number and distinct names. |
| Generator.CandidatesShape | vsbenchmark/core.py:70-86 | Every candidate has exactly the names of the applicable table. Its list-parameter entries are the table's own, verbatim and in order. Every other entry takes one value of its domain. |
| Generator.CandidatesCount | vsbenchmark/core.py:79-86 | There are as many candidates as the product of the domain sizes of the non-list entries. With no such entry there is exactly one candidate (lines 100-103). |
| Generator.CandidatesUnique | vsbenchmark/core.py:70-86 | A candidate of a table with distinct names has distinct names, like the dict it models. |
| Generator.Accepted | vsbenchmark/core.py:83-99 | The cases kept for one (function, format) pair are exactly the candidates the function accepts, and there are no more of them than candidates. When it accepts all of them, all are kept. |
| Generator.AcceptedSplit | vsbenchmark/core.py:83-99 | Filtering keeps candidate order: the cases of earlier candidates come before those of later ones. |
| Generator.AcceptedAll | vsbenchmark/core.py:83-99 | When the function accepts every candidate, the i-th case carries the i-th candidate. |
| Generator.PairCases | vsbenchmark/core.py:53-116 | The cases of one function and format: the accepted candidates of the applicable table, in candidate order. Accepted, AcceptedSplit, PairCasesComplete, PairCasesOrder and PairCasesCount state what they are. |
| Seqs.FlatMapSplit | vsbenchmark/core.py:49-50 | A nested loop over `xs + ys` emits everything from `xs` before anything from `ys`. |
| Seqs.FlatMapMember | vsbenchmark/core.py:49-50 | A nested loop emits an item exactly when some outer element yields it. |
| Generator.FunctionCasesMember | vsbenchmark/core.py:50-116 | Each case of one function carries that function and a listed format. Its parameters are a candidate of the table that applies, and the function accepts them. |
| Generator.CasesFromMember | vsbenchmark/core.py:49-116 | Each case belongs to a listed function and format, with an accepted candidate of its applicable table. |
| Generator.GenerateTestCases | vsbenchmark/core.py:46-118 | Every emitted case is well formed. Its function and format are configured, its parameters are a candidate of its applicable table, and the function accepts them. |
| Generator.GenerateComplete | vsbenchmark/core.py:83-116 | No accepted candidate of a configured function and format is lost. Only the rejected ones are skipped (lines 88-91 and 105-108). |
| Generator.GeneratedParams | vsbenchmark/core.py:53-116 | A generated case's parameters have exactly the names of its applicable table. The list parameters are carried verbatim, and every other name takes one domain value. |
| Generator.CandidatesOrder | vsbenchmark/core.py:79-86 | The choice of positions `idx` in the non-list domains stands at the mixed-radix rank of `idx`, so the last entry varies fastest. The list-parameter entries follow it. |
| Generator.CandidatesComplete | vsbenchmark/core.py:79-86 | Every choice of one domain value per non-list entry, followed by the list parameters, is a candidate. |
| Generator.ChoiceIndex | vsbenchmark/core.py:79-84 | A choice of domain values is the zip of the entry names with the values at some valid positions of the domains. |
| Generator.PairCasesComplete | vsbenchmark/core.py:79-99 | Every choice of domain values that the function accepts becomes a case of its pair. |
| Generator.PairCasesOrder | vsbenchmark/core.py:79-99 | When the function accepts everything, the pair's cases follow `itertools.product` order over the non-list domains. |
| Generator.PairCasesCount | vsbenchmark/core.py:79-116 | When the function accepts everything, one pair yields the product of its non-list domain sizes in cases. |
| Generator.CasesFromSplit | vsbenchmark/core.py:49 | The cases of earlier functions come before those of later ones, in dict order. |
| Generator.FunctionCasesSplit | vsbenchmark/core.py:50 | For one function, the cases of earlier formats come before those of later ones. |
| Sweep.CasesOf | vsbenchmark/core.py:167-172 | The cases of one format are exactly the cases having that format. |
| Sweep.GroupByFormat | vsbenchmark/core.py:167-172 | The cases grouped by format. GroupByFormatIsFilter and CasesPerFormatCountsAll state what the groups hold. |
| Sweep.GroupByFormatIsFilter | vsbenchmark/core.py:167-172 | The group built for a format holds exactly that format's cases, in generation order. An absent format has the empty group. |
| Sweep.TotalTests | vsbenchmark/core.py:174-178 | The progress total. TotalTestsIsProduct, TotalCountsEveryCase and TotalPositive state its value. |
| Sweep.FormatsTotal | vsbenchmark/core.py:176-178 | The per-resolution total. FormatsTotalFactors and FormatsTotalAtLeast state its value. |
| Sweep.TotalTestsIsProduct | vsbenchmark/core.py:174-178 | The total is the number of resolutions times the per-resolution total. |
| Sweep.FormatsTotalFactors | vsbenchmark/core.py:176-178 | The per-resolution total is the summed group sizes times the passes. |
| Sweep.GroupSizesAreCounts | vsbenchmark/core.py:167-178 | Summed over the formats, the group sizes equal the per-format case counts. |
| Sweep.CasesPerFormatCountsAll | vsbenchmark/core.py:167-178 | With distinct formats covering every case, the per-format counts add up to the number of cases. |
| Sweep.TotalCountsEveryCase | vsbenchmark/core.py:174-178 | With distinct formats covering every case, the total is resolutions × cases × passes. |
| Sweep.FormatsTotalAtLeast | vsbenchmark/core.py:176-178 | With passes not negative, a listed format adds at least its cases × passes to the per-resolution total. |
| Sweep.GroupSizesAtLeast | vsbenchmark/core.py:176-178 | A listed format's group is part of the summed group sizes. |
| Sweep.TotalPositive | vsbenchmark/core.py:174-182 | With a resolution, positive passes and a listed format that has a case, the total is positive, so the run does not return early. |
| Sweep.CaseRows | vsbenchmark/core.py:215-242 | Each pass of a case gives exactly one row, numbered from 1. A pass that raised is recorded with NaN in both measures, not dropped. A pass that ran records its elapsed time and FPS. |
| Sweep.CasesRows | vsbenchmark/core.py:210-242 | A format's cases at one resolution give cases × passes rows. Each row has a pass number in range and belongs to one of the cases. |
| Sweep.CellRows | vsbenchmark/core.py:196-242 | A cell gives no rows when its format has no cases or its clip cannot be created. Otherwise it gives cases × passes rows, all from that cell. |
| Sweep.CasesRowsComplete | vsbenchmark/core.py:210-242 | Every pass 1..passes of every case of a cell has its row. |
| Sweep.ResolutionRows | vsbenchmark/core.py:192-242 | Every row of one resolution has a listed format, a created clip, a pass in range, and a case of its format. |
| Sweep.ResolutionRowsComplete | vsbenchmark/core.py:192-242 | At one resolution, every pass of every case of a listed format whose clip is created has its row. |
| Sweep.SweepRows | vsbenchmark/core.py:190-242 | Every row of the sweep has a listed resolution and format, a created clip, a pass in range, and a case of its format. |
| Sweep.SweepRowsComplete | vsbenchmark/core.py:190-242 | Every pass of every case at every listed resolution and format whose clip is created has its row, whatever happens to other clips. |
| Sweep.ResolutionRowsCount | vsbenchmark/core.py:176-242 | When every clip is created, a resolution yields exactly its share of the total. |
| Sweep.SweepRowsCount | vsbenchmark/core.py:174-242 | When every clip is created and passes is not negative, the sweep yields exactly `total_tests` rows. |
| Sweep.SweepRowsOfCases | vsbenchmark/core.py:167-242 | Every row of the sweep reports on a generated case of the row's own format. |
| Sweep.RunBenchmark | vsbenchmark/core.py:164-248 | The configuration is unchanged. A zero total keeps the previous results. Otherwise every new row comes from a created clip, has a pass in 1..passes, and reports a generated case of its format. RunRecordsCreatedCells states the converse. |
| Sweep.GroupedSweepComplete | vsbenchmark/core.py:167-242 | After grouping, a case of a listed format with a created clip makes the total positive, and each of its passes has a row. |
| Sweep.RunRecordsCreatedCells | vsbenchmark/core.py:164-248 | A clip that cannot be created loses only its own cell. For every listed resolution and format whose clip is created, every generated case of that format has a row for each pass 1..passes. |
| Sweep.RunRecordsEveryPass | vsbenchmark/core.py:174-248 | With every clip created, positive passes and distinct formats, a run with at least one case and one resolution records exactly resolutions × cases × passes rows. |
| Comparison.AddKeys | vsbenchmark/core.py:315 | The result holds each key once: the seen keys plus the keys of the rows. |
| Comparison.GroupKeys | vsbenchmark/core.py:315 | The groups are the distinct row keys, each once. |
| Comparison.Summarize | vsbenchmark/core.py:315-316 | The per-group means of one column. SummarizeGroups states what the lines hold. |
| Comparison.SummarizeGroups | vsbenchmark/core.py:315-316 | The summary has exactly one line per group of the results. Each line carries the NaN-skipping mean of its group's column. |
| Comparison.Rank | vsbenchmark/core.py:320-326 | `rank(method='min')` of a line within its cell, absent for NaN. AheadCountZero and BestIsUnbeaten state when it is 1. |
| Comparison.SelectBest | vsbenchmark/core.py:319-327 | A line is kept exactly when its rank within its cell is 1. |
| Comparison.CellBest | vsbenchmark/core.py:319-327 | A cell's best mean is absent exactly when every mean in the cell is NaN. Otherwise it is a mean of the cell, and no mean of the cell is strictly better. |
| Comparison.AheadCountZero | vsbenchmark/core.py:320-326 | The rank is 1 (nothing strictly ahead) exactly when no non-NaN mean of the cell beats the value. |
| Comparison.BestIsUnbeaten | vsbenchmark/core.py:320-327 | Nothing ranks ahead of a line's mean exactly when that mean is the cell's best. |
| Comparison.SelectedIffCellBest | vsbenchmark/core.py:319-327 | Lines are kept exactly when their mean equals the cell's minimum (TIME) or maximum (FPS). All ties are kept, and NaN means never are. |
| Comparison.EveryCellHasBest | vsbenchmark/core.py:319-327 | A cell with at least one non-NaN mean keeps at least one line. |
| Comparison.CellBestOfCell | vsbenchmark/core.py:319-327 | Lines of the same cell share the cell's best. |
| Comparison.CompareFunctionsAsWritten | vsbenchmark/core.py:305-316 | As written, the guard refuses every metric but TIME and FPS, and no results show nothing. Any results fail with a KeyError on an integer label. |
| Comparison.AsWrittenNeverCompares | vsbenchmark/core.py:313-316 | As written, an accepted metric with any results fails with a KeyError on the integer label 1 (TIME) or 2 (FPS). |
| Comparison.CompareFunctions | vsbenchmark/core.py:305-327 | The metric guard comes first, whatever the results. No results show nothing. Otherwise the rows shown are exactly the groups whose mean is the best in their cell: minimum for TIME, maximum for FPS, ties included. |

## Left out

- Timing is a parameter, not a computation. Wall-clock time, floating-point
  arithmetic and the infinite FPS of a pass whose elapsed time is 0 (core.py:146-162) are
  left out. The measures are mathematical reals.
- The Params column holds `str(params)`, the Resolution column `'WxH'` and the
  Format column `fmt.name`. Rows keep the table, the resolution pair and the
  format id instead. This treats these renderings as injective.
- Override keys are tagged as an exact format or a colour family. In Python
  both are integer dict keys, and a format id equal to a family's integer
  value would collide.
- `validate_function_params` (core.py:133-144) is abstracted to the
  `accepts` predicate. Signature binding and the `format` parameter's
  BlankClip are not modelled.
- The timing oracle `Runtime.timing` is a function of the case, the
  resolution and the pass number. Duplicate cases (say `radius: [1, 1]`) or a format
  listed twice therefore get the same outcome in the model. The program times
  each repeat separately. No property proved here depends on this.
- `BlankClip` creation is abstracted to `clipOk`. The clip's `length` is
  carried in the configuration but used by nothing in the model.
- Progress bar, logging, printing, `KeyboardInterrupt`, `display_results`,
  `save_results` and the printed comparison table are left out.
  `KeyboardInterrupt` would keep the rows gathered so far.
- Comparison.CompareFunctions: its result keeps the summary's group order
  rather than pandas' sorted `groupby` order. The statement is about which
  rows are shown, not their order.
- The program has no thread-count sweep, efficiency computation or JSON
  export. The EFFICIENCY, CPU_USAGE and MEMORY_USAGE flags exist only in the
  enumeration.
- `accepts` assumes that validation raises nothing but `TypeError`
  (core.py:135-142). A `vs.Error` or `ValueError` there escapes and aborts
  `run_benchmark` at core.py:165. The model does not represent that abort.
- Formats are assumed to be enum members with a `.name`. A format without
  one raises `AttributeError` at core.py:194. The `finally` at core.py:247-248
  then keeps only the rows gathered before it, and the error propagates. The
  model does not represent that failure.

## Findings

| source | as written | input that shows it | evidently intended | confidence | as-written member | corrected member |
|---|---|---|---|---|---|---|
| vsbenchmark/core.py:313-316 | The column is looked up by `metric.value`, which is the integer 1 for TIME and 2 for FPS under `auto()`. | Any non-empty results with `Metric.TIME`: the lookup `grouped[1]` raises KeyError. | Look up the "Time" column for TIME and the "FPS" column for FPS. | not executed | Comparison.AsWrittenNeverCompares | Comparison.CompareFunctions |
