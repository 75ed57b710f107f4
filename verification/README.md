# SSB benchmark harness for DuckDB with RPT, modelled in Dafny

The harness runs the Star Schema Benchmark queries against a DuckDB command-line
binary twice, once as a baseline and once with the RPT optimisation. It then
compares the two runs. The six `runner/` scripts modelled here do the following:

- `run_experiments.py` times each catalog query: one unrecorded warm-up, then
  `--reps` timed repetitions, appended to a results CSV. The first failing
  invocation aborts the run. As written, `main` raises at line 195 before it
  opens the file. The loop is modelled as it runs once line 195 reads
  `args.duckdb_bin` (see ## Findings).
- `measure_memory.py` measures peak resident memory per repetition. It reads
  the "Maximum resident set size" line of `/usr/bin/time -v`. When that tool
  is missing, it samples `VmRSS:` in `/proc/<pid>/status`. Failed runs are
  written as a `-1` sentinel row.
- `measure_join_sizes.py` runs a list of `COUNT(*)` probes per query and
  writes one row per probe, numbered from 1. A probe without a count gives `-1`.
- `analyze_results.py` groups timings by query and reports, per query, the
  means, speedup and improvement, with a `MISSING` line for one-sided queries.
  It also reports totals weighted by time and a win/loss/tie tally.
- `create_graphs.py` and `create_graphs_for_scale_factor.py` load the same
  files and compute the data behind five graphs. They differ in how they
  filter memory rows, key join sizes and pick the steps they draw.

Module layout:

- One module per script: `RunExperiments`, `MeasureMemory`, `MeasureJoinSizes`,
  `AnalyzeResults`, `CreateGraphs` and `CreateGraphsForScaleFactor`.
- `GraphData` holds what the two graph scripts share, line for line.
- Shared helper modules:
  - `Grouping`: the `defaultdict(list)` and `defaultdict(dict)` folds every
    loader performs.
  - `Stats`: `mean`, and the square of `stdev`.
  - `Text`: the first integer found by `re.search(r'(\d+)')`, `strip`,
    `split`, substring tests and Python's string order.
  - `Catalog`: the insertion-ordered `QUERIES` dictionaries.
  - `Process`: what one program invocation gave.
  - `Wrappers`: `Option` and `Result`.

How the code is modelled:

- Loops stay loops, with two exceptions. Each loop is a method proved equal
  to a recursive reference function, and the properties are lemmas about
  that function. The exceptions:
  - The line scan of `parse_time_output` (runner/measure_memory.py:171-178)
    stops at the first match. It is the recursive function
    `MeasureMemory.ScanForRss`.
  - The panel loop of `create_join_size_graph`
    (runner/create_graphs_for_scale_factor.py:212-234) computes each panel
    independently. It is the sequence comprehension
    `CreateGraphsForScaleFactor.Panels`.
- The results CSV that `run_experiments.py` opens for append is a class whose
  `Append` method only adds at the end.
- Subprocesses, clocks and `/proc` become oracle parameters. An oracle gives
  what each invocation did, indexed by the position of the query and the
  repetition or step.

## Model

| member | source | states |
|---|---|---|
| Catalog.Names | runner/run_experiments.py:206 | The catalog's query names, one per entry, in declaration order. |
| Catalog.LookupFindsFirstEntry | runner/measure_memory.py:298-302 | `name in QUERIES` holds exactly when some entry carries the name, and `QUERIES[name]` is that entry's payload. |
| Catalog.LookupInDistinctCatalog | runner/measure_memory.py:14-165 | In a catalog that declares each id once, as the `QUERIES` dictionaries do, looking up an entry's id gives that entry's payload. |
| Catalog.QueriesToRun | runner/measure_memory.py:291 | The names `--queries` lists, in order, or the catalog's names when none are given; DefaultRunCoversCatalog states that the default covers the catalog exactly. |
| Catalog.DefaultRunCoversCatalog | runner/measure_memory.py:291 | Without `--queries`, or with an empty list, a name is run exactly when `name in QUERIES` holds: no catalog query is skipped and no other name is run. |
| Process.Take | runner/measure_memory.py:198 | `s[:n]` has length min(n, len s) and is a prefix of s. |
| Text.DecimalText | runner/measure_join_sizes.py:230 | `str(n)` is a non-empty digit string whose value is n, without a leading zero when n > 0. |
| Text.FirstDigitRun | runner/measure_memory.py:176-178 | The integer `re.search(r'(\d+)')` reads; FirstDigitRunFindsAnyDigit and FirstDigitRunIsLeftmostMaximal state its properties. |
| Text.FirstDigitRunFindsAnyDigit | runner/measure_memory.py:176-177 | `re.search(r'(\d+)')` finds a match exactly when the text holds a digit. |
| Text.FirstDigitRunIsLeftmostMaximal | runner/measure_memory.py:176-178 | The integer read is the value of the leftmost maximal run of digits. |
| Text.Strip | runner/measure_join_sizes.py:179 | `str.strip()`; StripLeadingIsSuffix and StripTrailingIsPrefix state that it keeps a slice that neither starts nor ends with whitespace, and StripKeepsFirstDigitRun that it keeps the first integer. |
| Text.StripKeepsFirstDigitRun | runner/measure_join_sizes.py:179-184 | `strip()` never changes the first integer of a text. |
| Text.Split | runner/measure_memory.py:173 | `split('\n')` gives at least one part, no part holds the separator, and joining the parts gives the text back. |
| Text.ContainsAt | runner/measure_memory.py:174 | The `in` test finds the pattern at any position where it occurs. |
| Text.BelowTransitive | runner/analyze_results.py:32 | Python's string order is transitive. |
| Text.BelowTotal | runner/analyze_results.py:32 | Python's string order is total on distinct strings. |
| Text.Smallest | runner/analyze_results.py:32 | A non-empty set of strings has an element that precedes every other one. |
| Text.SortedSet | runner/analyze_results.py:32 | `sorted(set)` is strictly ascending and holds exactly the set's elements. |
| Text.SortedSetSize | runner/analyze_results.py:32 | `sorted(set)` lists each element exactly once. |
| Text.SortedSetLastIsGreatest | runner/create_graphs.py:217-221 | The last element of `sorted(set)` is above or equal to every element. |
| Text.LastSorted | runner/create_graphs.py:217-221 | `sorted(set)[-1]` is in the set, and every other element sorts below it. |
| Stats.MeanWithinBounds | runner/analyze_results.py:48-49 | A mean lies between any lower and any upper bound of its samples. |
| Stats.GuardedVariance | runner/analyze_results.py:50-51 | The squared spread `stdev(xs) if len(xs) > 1 else 0` is never negative, and it is 0 for at most one sample. |
| Grouping.SamplesForSnoc | runner/analyze_results.py:19-22 | One more row extends its own query's list by its value and leaves every other list unchanged. |
| Grouping.SamplesForNonEmpty | runner/analyze_results.py:22 | A query that some row feeds has at least one sample. |
| Grouping.GroupStep | runner/analyze_results.py:19-22 | Appending a row's value to its query's list keeps the dictionary equal to the reference grouping of the rows read so far. |
| Grouping.Group | runner/analyze_results.py:15-24 | The dictionary of lists has exactly the queries some row feeds. Each list holds that query's samples in file order and is never empty. |
| Grouping.Averages | runner/create_graphs.py:34-35 | `{q: mean(lists[q])}` has the same keys as the lists. |
| Grouping.MeansOfSamples | runner/create_graphs.py:20-37 | A query has a mean exactly when some row feeds it, and the mean is that of its samples. |
| Grouping.LoadMeans | runner/create_graphs.py:22-37 | The loader's fold and averaging equal the reference means. |
| Grouping.NestedHoldsNamedPairs | runner/create_graphs.py:49-53 | `table[q][k]` exists exactly when some row names the pair (q, k). |
| Grouping.NestedLastWins | runner/create_graphs.py:53 | A pair holds the value of the last row that names it. |
| Grouping.NestedInnerNonEmpty | runner/create_graphs.py:41-53 | Every query in a `defaultdict(dict)` table has at least one entry. |
| Grouping.NestedKeys | runner/create_graphs.py:41-53 | The table's queries are exactly those some row names. |
| Grouping.GroupNested | runner/create_graphs.py:41-55 | The row-by-row assignment loop builds the reference nested table. |
| AnalyzeResults.LoadResults | runner/analyze_results.py:13-24 | `load_results` has a list exactly for the queries in the `query` column. Each list holds that query's times in file order and is never empty. |
| AnalyzeResults.OneSamplePerRow | runner/analyze_results.py:19-22 | A query's list is as long as the number of rows naming it. |
| AnalyzeResults.Speedup | runner/analyze_results.py:53 | With a positive RPT mean, speedup × RPT mean equals the baseline mean; otherwise the speedup is 0. |
| AnalyzeResults.Improvement | runner/analyze_results.py:54 | With a positive baseline mean, improvement × baseline mean equals (baseline − RPT) × 100; otherwise it is 0. |
| AnalyzeResults.SpeedupOrdersLikeMeans | runner/analyze_results.py:53 | With a positive RPT mean, the speedup is above, below or equal to 1 exactly as the baseline mean compares with the RPT mean. |
| AnalyzeResults.ImprovementSignLikeMeans | runner/analyze_results.py:54 | With a positive baseline mean, improvement is positive, negative or 0 exactly as RPT is faster, slower or equal. |
| AnalyzeResults.ImprovementFromSpeedup | runner/analyze_results.py:53-54 | With both guards passing, improvement = 100 · (1 − 1/speedup). |
| AnalyzeResults.LineFor | runner/analyze_results.py:43-54 | A query's line is MISSING exactly when one side lacks it. Otherwise it holds both means, the guarded variances, the speedup and the improvement. |
| AnalyzeResults.CompareQuery | runner/analyze_results.py:43-57 | One iteration of the loop yields the query's line and adds its two means to the totals, or nothing for a MISSING query. |
| AnalyzeResults.ReportOver | runner/analyze_results.py:40-89 | What a report over a query list holds: one line per query in order, totals over comparable queries, overall speedup and improvement from the totals, wins and losses, and ties as the rest. Walk and Analyze ensure it, and TallyPartition states its tally property. |
| AnalyzeResults.Walk | runner/analyze_results.py:40-89 | The loop gives one line per query in order. The totals are sums over comparable queries. Overall speedup and improvement follow from the totals. Wins and losses count strict comparisons of the means, and ties are the rest. |
| AnalyzeResults.Analyze | runner/analyze_results.py:26-93 | The report walks `sorted(set(baseline) \| set(rpt))` and holds what `Walk` states. |
| AnalyzeResults.TallyPartition | runner/analyze_results.py:83-89 | Each query is exactly one of win, loss, equal or MISSING, so ties = equal + MISSING. |
| AnalyzeResults.ZeroRptMeanWinReportsZeroSpeedup | runner/analyze_results.py:53 | An RPT mean of 0 against a positive baseline mean is tallied as a win, yet its speedup is reported as 0. |
| AnalyzeResults.BaselineTotal | runner/analyze_results.py:55-56 | `total_baseline`, the sum of the baseline means of the comparable queries; Walk ties the report's total to it and OneSidedQueryAddsNoTime states that a one-sided query adds nothing. |
| AnalyzeResults.RptTotal | runner/analyze_results.py:55-56 | `total_rpt`, the sum of the RPT means of the comparable queries; Walk and OneSidedQueryAddsNoTime state its properties as for BaselineTotal. |
| AnalyzeResults.OneSidedQueryAddsNoTime | runner/analyze_results.py:44-46 | Inserting a one-sided query anywhere leaves both totals unchanged. |
| AnalyzeResults.Wins | runner/analyze_results.py:83-85 | The count of queries both sides have whose baseline mean is above the RPT mean; TallyPartition and OneSidedQueryAddsNoWin state its properties. |
| AnalyzeResults.Losses | runner/analyze_results.py:86-88 | The count of queries both sides have whose baseline mean is below the RPT mean; TallyPartition and OneSidedQueryAddsNoWin state its properties. |
| AnalyzeResults.OneSidedQueryAddsNoWin | runner/analyze_results.py:83-88 | Inserting a one-sided query anywhere adds no win and no loss and adds one MISSING line. |
| AnalyzeResults.OneSidedQueryAddsNothing | runner/analyze_results.py:44-57 | Both of the above at once: totals, wins and losses unchanged, and one more MISSING line. |
| AnalyzeResults.OverallSpeedupIsNotMeanOfSpeedups | runner/analyze_results.py:71 | The overall speedup is a ratio of sums. With means (1, 100) against (2, 50) it is 101/52, while the per-query speedups 0.5 and 2 average 1.25. |
| AnalyzeResults.SortedPair | runner/analyze_results.py:32 | `sorted({x, y})` is `[x, y]` when x sorts below y. |
| AnalyzeResults.TwoQueryScenario | runner/analyze_results.py:32-89 | A worked report over the sorted union [q1, q2] that `Analyze` walks: speedup 2.2 and improvement 600/11 % for q1; 1 and 0 for q2; overall 1.11/1.05; one win and no loss. |
| RunExperiments.RunQuery | runner/run_experiments.py:163-175 | A binary that cannot be started propagates its own exception message. A non-zero exit raises "Command failed: …". Otherwise the result is the non-negative elapsed time between the two clock readings. |
| RunExperiments.PlannedRepsElements | runner/run_experiments.py:209-211 | The planned row k of a query is repetition k + 1, timed by invocation k + 1. |
| RunExperiments.RepRows | runner/run_experiments.py:209-211 | The repetition loop of one query; RepRowsArePlannedPrefix, RepFailureCutsRows and RepAbortIsFinal state its properties. |
| RunExperiments.QueryRun | runner/run_experiments.py:206-211 | One query: the warm-up, then its repetitions; WarmUpFailureWritesNothing, QueryRowsNumbered and WarmUpTimeIsDiscarded state its properties. |
| RunExperiments.Experiment | runner/run_experiments.py:206-211 | The catalog loop, stopping at the first exception; ExperimentIsPlannedPrefix, FirstFailureCutsRun and AbortIsFinal state its properties. |
| RunExperiments.RepRowsArePlannedPrefix | runner/run_experiments.py:209-211 | The repetitions written are a prefix of the planned ones. There is no failure exactly when every repetition succeeds, and then all planned rows are written. |
| RunExperiments.ExperimentIsPlannedPrefix | runner/run_experiments.py:206-211 | A run appends a prefix of the planned rows in catalog order. It ends without an exception exactly when every invocation, warm-ups included, exits with 0, and then it writes every planned row. |
| RunExperiments.RepFailureCutsRows | runner/run_experiments.py:209-211 | When repetition k is the first to fail, the query's rows are repetitions 1..k−1, each with its own time. Repetition k writes no row, and its exception is the failure. |
| RunExperiments.WarmUpFailureWritesNothing | runner/run_experiments.py:206-208 | A failing warm-up writes no row for its query, and its exception is the failure. |
| RunExperiments.FirstFailureCutsRun | runner/run_experiments.py:206-211 | When every invocation before query pos succeeds and one of query pos fails, the file receives every planned row of the earlier queries, then what query pos wrote before its failure. The run ends with that query's exception. |
| RunExperiments.RepAbortIsFinal | runner/run_experiments.py:210 | Once a repetition fails, no later repetition adds anything. |
| RunExperiments.AbortIsFinal | runner/run_experiments.py:206-210 | Once an invocation fails, the rest of the catalog adds nothing. |
| RunExperiments.ExperimentStep | runner/run_experiments.py:206-211 | Reaching a query, the run appends that query's rows and takes on its outcome. |
| RunExperiments.QueryRowsNumbered | runner/run_experiments.py:209-211 | A query that is reached and does not fail contributes `reps` rows, numbered 1..reps, carrying the mode, the query and each repetition's time. |
| RunExperiments.RepRowsIgnoreWarmUp | runner/run_experiments.py:208-211 | The repetition rows do not depend on the timing of the warm-up. |
| RunExperiments.WarmUpTimeIsDiscarded | runner/run_experiments.py:208 | How long the warm-up took never reaches the file. Only whether it failed matters. |
| RunExperiments.ResultFile.Append | runner/run_experiments.py:211 | `writer.writerow` adds exactly one line at the end of the file opened for append. |
| RunExperiments.TimeQuery | runner/run_experiments.py:208-211 | The inner loop appends exactly the query's rows and returns its failure. |
| RunExperiments.RunQueries | runner/run_experiments.py:206-211 | The outer loop appends exactly the run's rows after what the file held and returns the run's failure. |
| RunExperiments.RunAll | runner/run_experiments.py:200-211 | The file ends up holding its old lines, then the header if it was empty, then the run's rows. |
| RunExperiments.Dest | runner/run_experiments.py:184 | argparse's attribute name for a long option is the name with each `-` replaced by `_`. |
| RunExperiments.DestOfDuckdbBin | runner/run_experiments.py:184 | `--duckdb-bin` is stored under `duckdb_bin`. |
| RunExperiments.DuckdbBinIsDeclared | runner/run_experiments.py:182-192 | `duckdb_bin` is among the attributes the parser creates. |
| RunExperiments.BinPathAsWritten | runner/run_experiments.py:195 | `args.duckdb-bin` read as a subtraction; BinPathAsWrittenAlwaysFails states that it always raises. |
| RunExperiments.BinPathAsWrittenAlwaysFails | runner/run_experiments.py:195 | On every namespace the parser builds, `args.duckdb-bin` raises AttributeError for `duckdb`. |
| RunExperiments.BinPath | runner/run_experiments.py:195 | Corrected: `args.duckdb_bin` is present and gives the path that was passed. |
| MeasureMemory.ParseTimeOutput | runner/measure_memory.py:168-179 | `parse_time_output`: the scan of the `split('\n')` lines; ScanForRss and ScanForRssFindsFirstReading state which line's integer it returns. |
| MeasureMemory.ScanForRss | runner/measure_memory.py:173-181 | The scan gives None exactly when no line both names the field (either spelling) and holds a digit. |
| MeasureMemory.ScanForRssFindsFirstReading | runner/measure_memory.py:173-179 | The scan gives the first integer of the first such line and passes over earlier field lines that have no digit. |
| MeasureMemory.SplitWithoutSeparator | runner/measure_memory.py:173 | Output without a line break is a single line. |
| MeasureMemory.FieldMatchIsCaseSensitive | runner/measure_memory.py:174 | Output whose lines have no capital M gives None. |
| MeasureMemory.LowerCaseFieldIsNotRead | runner/measure_memory.py:174 | A lower-case "maximum resident set size: 2048" line is not read. |
| MeasureMemory.FailureStatusIsNotSuccess | runner/measure_memory.py:198-213 | No failure status is empty or reads "success". |
| MeasureMemory.StopIndex | runner/measure_memory.py:235-250 | Polling stops at the first snapshot whose status file vanished or could not be read, and at no earlier one. |
| MeasureMemory.PeakBoundsEverySample | runner/measure_memory.py:245-246 | The peak is at least every VmRSS sample taken. |
| MeasureMemory.PeakIsASample | runner/measure_memory.py:231-247 | The peak is 0 or the value of some sample. |
| MeasureMemory.VmRssLineReading | runner/measure_memory.py:239-244 | A `VmRSS:` line contributes its kB figure × 1024 bytes. |
| MeasureMemory.FallbackResult | runner/measure_memory.py:216-264 | `run_query_with_memory_alt` as a function of the run; FallbackWellFormed, FallbackFailureCases and the peak lemmas state its properties. |
| MeasureMemory.FallbackWellFormed | runner/measure_memory.py:252-264 | The fallback gives exactly one of a positive peak or a failure status. |
| MeasureMemory.FallbackFailureCases | runner/measure_memory.py:254-259 | A non-zero exit is an "error: " + stderr[:200] failure whatever was sampled. A zero peak is "could not measure memory", never 0 bytes. |
| MeasureMemory.RisingThenFallingReportsMaximum | runner/measure_memory.py:231-261 | Samples of 100, 300 and then 200 kB report 300 kB, not the last reading. |
| MeasureMemory.ReadVmRss | runner/measure_memory.py:238-247 | Reading one status file gives the bytes of its first `VmRSS:` line. |
| MeasureMemory.RunFallback | runner/measure_memory.py:216-264 | The polling loop computes the reference fallback result. |
| MeasureMemory.MeasureQuery | runner/measure_memory.py:184-213 | `run_query_with_memory` as a function of its outcome; MeasureQueryWellFormed and FallbackOnlyWhenToolMissing state its properties. |
| MeasureMemory.MeasureQueryWellFormed | runner/measure_memory.py:184-213 | Whatever happens, exactly one half of (peak, status) is present. When `/usr/bin/time` is missing, the fallback decides. |
| MeasureMemory.FallbackOnlyWhenToolMissing | runner/measure_memory.py:197-213 | A timeout, a non-zero exit, unparseable output or another exception never consults the fallback. A parsed figure is reported as kB × 1024. |
| MeasureMemory.RunQueryWithMemory | runner/measure_memory.py:184-213 | The step-by-step measurement computes the reference result. |
| MeasureMemory.MeasurementsOfWellFormed | runner/measure_memory.py:307-309 | Every invocation's pair is well formed. |
| MeasureMemory.RowFor | runner/measure_memory.py:311-323 | The row of one repetition; RowForIsSentinelOrSuccess states its property. |
| MeasureMemory.MemoryRows | runner/measure_memory.py:297-323 | The rows of the requested names; MemoryRowsShape states its property. |
| MeasureMemory.RowForIsSentinelOrSuccess | runner/measure_memory.py:311-323 | Each row is a "success" row exactly when a peak was measured. Otherwise it is a −1/−1 sentinel row with a non-empty failure status. |
| MeasureMemory.QueryRowsElements | runner/measure_memory.py:305-323 | Row k of a query is the row of repetition k + 1. |
| MeasureMemory.QueryRowsShape | runner/measure_memory.py:305-323 | A known query yields exactly `reps` rows, numbered 1..reps, each a success or a sentinel. |
| MeasureMemory.AppendKnownRows | runner/measure_memory.py:297-323 | Appending a known query's rows keeps every row a row of a catalog query. |
| MeasureMemory.MemoryRowsShape | runner/measure_memory.py:297-323 | The file holds `reps` rows per known requested name and none for unknown ones. Every row names a catalog query, has a repetition in 1..reps and is a success or a sentinel. |
| MeasureMemory.MeasureReps | runner/measure_memory.py:305-323 | The inner loop produces exactly the reference rows of the query. |
| MeasureMemory.MeasureAll | runner/measure_memory.py:291-323 | The nested loops produce exactly the reference rows for the names to run. |
| MeasureJoinSizes.RunCountQuery | runner/measure_join_sizes.py:161-188 | A count is returned only after a zero exit. |
| MeasureJoinSizes.RunCountQueryReadsFirstInteger | runner/measure_join_sizes.py:179-185 | After a zero exit the count is the first integer of the output, stripped or not, and None exactly when the output has no digit. |
| MeasureJoinSizes.CountOrSentinel | runner/measure_join_sizes.py:229-233 | The `row_count` cell is −1 exactly when there is no count, and otherwise it is the count. |
| MeasureJoinSizes.StepRow | runner/measure_join_sizes.py:228-233 | The row of one probe; StepRowsShape states its property. |
| MeasureJoinSizes.JoinRows | runner/measure_join_sizes.py:219-233 | The rows of the requested names; JoinRowsShape states its property. |
| MeasureJoinSizes.StepRowsElements | runner/measure_join_sizes.py:227-233 | Row k of a query is the row of probe k + 1. |
| MeasureJoinSizes.StepRowsShape | runner/measure_join_sizes.py:227-233 | One row per probe, numbered from 1 in declaration order. A failed probe is written as −1 and later probes still run. |
| MeasureJoinSizes.RecordedProbeIsDeclared | runner/measure_join_sizes.py:227-233 | The row of step k + 1 belongs to a probe the catalog declares. |
| MeasureJoinSizes.JoinRowsShape | runner/measure_join_sizes.py:219-233 | The file holds one row per declared probe of every known requested name and nothing for unknown names. Every count is −1 or non-negative. |
| MeasureJoinSizes.AllProbesFailing | runner/measure_join_sizes.py:109-157 | With every probe of q4.1 timing out, its nine rows are still written, steps 1..9, all −1. |
| MeasureJoinSizes.ProbeSteps | runner/measure_join_sizes.py:227-233 | The `enumerate` loop produces exactly the reference rows of the query. |
| MeasureJoinSizes.MeasureAll | runner/measure_join_sizes.py:213-233 | The loop over the names to run produces exactly the reference rows. |
| GraphData.LoadSide | runner/create_graphs.py:62-77 | One side of a loader that skips a missing file and averages per query computes the reference means, none for a missing file. `create_graphs_for_scale_factor.py` uses it with its own sample. |
| GraphData.LoadNestedSide | runner/create_graphs.py:44-53 | One side of `load_join_size_data` computes the reference nested table, empty for a missing file. Both graph scripts use it with their own key. |
| GraphData.PerformanceData | runner/create_graphs.py:20-37 | `load_performance_data`; PerformanceDataNeedsBothFiles states its property. |
| GraphData.LoadPerformanceData | runner/create_graphs.py:20-37 | The two loader passes compute the reference performance data. |
| GraphData.PerformanceDataNeedsBothFiles | runner/create_graphs.py:25-31 | The performance loader fails exactly when a file is missing. Otherwise a query has a mean exactly when a row names it. |
| GraphData.Queries | runner/create_graphs.py:81 | The x axis is strictly ascending and holds exactly the queries of either side. |
| GraphData.GraphSpeedup | runner/create_graphs.py:118-125 | The speedup drawn for one query; GraphSpeedupAgainstReport states its property. |
| GraphData.GraphSpeedupAgainstReport | runner/create_graphs.py:120-125 | The graph's speedup equals the report's where both means exist and the RPT mean is positive. It is 1.0 where the report prints 0, and 1.0 for one-sided queries. |
| GraphData.SpeedupsOver | runner/create_graphs.py:119-125 | The loop gives one speedup per query on the axis, in order. |
| GraphData.SpeedupSeries | runner/create_graphs_for_scale_factor.py:124-131 | The axis is the sorted union, with one speedup per query on it. |
| GraphData.Bars | runner/create_graphs.py:82-83 | One bar per query: the mean times the scale, or 0 for a query the side lacks. |
| GraphData.PerformanceBars | runner/create_graphs.py:81-83 | The performance graph's axis and bars; PerformanceBarsInMilliseconds states their property. |
| GraphData.PerformanceBarsInMilliseconds | runner/create_graphs.py:81-83 | The performance graph has one pair of bars per query either side timed, in ascending order. Each bar is the side's mean × 1000, or 0 for a side that lacks the query. |
| GraphData.MemoryBars | runner/create_graphs.py:165-167 | The memory graph's axis and bars; MemoryBarsUnscaled states their property. |
| GraphData.MemoryBarsUnscaled | runner/create_graphs.py:165-167 | The memory graph has one pair of bars per query either side measured, in ascending order. Each bar is the side's mean in MB, or 0 for a side that lacks the query. |
| GraphData.SummaryBars | runner/create_graphs.py:265-285 | The summary graph's axis and its two panels' bars; SummaryMemoryOnPerformanceAxis states their property. |
| GraphData.SummaryMemoryOnPerformanceAxis | runner/create_graphs.py:265-285 | The summary's two panels share the performance axis. A query with memory but no time is not drawn, and a timed query without memory is drawn as 0 MB. |
| CreateGraphs.MemoryMeansCoverPlottedQueries | runner/create_graphs.py:68-75 | A query has a memory mean exactly when some row of it is "success" and not "-1". The mean is over those rows only. |
| CreateGraphs.FailedRowAddsNothing | runner/create_graphs.py:68 | A failed or sentinel row changes no query's list. |
| CreateGraphs.MemorySamplesArePlotted | runner/create_graphs.py:68-71 | Every averaged value is the value of a kept row of that query. |
| CreateGraphs.JoinSizeIsLastRow | runner/create_graphs.py:53 | A step's size is the count of the last row naming that query and step name. |
| CreateGraphs.ColourOf | runner/create_graphs.py:128 | The colour of one speedup bar; Colours and ColourOfQuery state when it is green, red or grey. |
| CreateGraphs.Colours | runner/create_graphs.py:128 | One colour per bar: green exactly when the speedup is above 1, red exactly when below. |
| CreateGraphs.ColourOfQuery | runner/create_graphs.py:118-128 | A bar is green exactly when both sides have the query and RPT is positive and faster. It is red when positive and slower. Every other bar, one-sided ones included, is grey. |
| CreateGraphs.FinalByName | runner/create_graphs.py:217-222 | As written, the size under the greatest step name; FinalByNameOfThree and FinalByNameMissesFinalJoin state its properties. |
| CreateGraphs.FinalByNameOfThree | runner/create_graphs.py:217-222 | As written, of three step names the size under the one that sorts last is picked. |
| CreateGraphs.Q11NameOrder | runner/create_graphs.py:217 | "lineorder_filtered" sorts after "join1" and after "date_filtered". |
| CreateGraphs.FinalByNameMissesFinalJoin | runner/create_graphs.py:217-222 | As written, the "final join size" of q1.1 is the count of the filtered lineorder table, not that of its join. |
| CreateGraphs.LatestStep | runner/create_graphs.py:216 | The chosen step has the greatest step number among the names. |
| CreateGraphs.FinalByStep | runner/create_graphs.py:216-222 | Corrected: 0 for no steps, otherwise the size of a step with the greatest step number. |
| CreateGraphs.FinalOfThreeSteps | runner/create_graphs.py:216-222 | Corrected, of three steps the one with the greatest step number gives the size. |
| CreateGraphs.FinalByStepFindsFinalJoin | runner/create_graphs.py:216-222 | Corrected, q1.1's final size is that of its join, step 3. |
| CreateGraphs.FinalBars | runner/create_graphs.py:214-223 | The reference bars of the join graph; FinalBarsAreBars and FinalBarsCoverSharedQueries state which queries get a bar and what it shows. |
| CreateGraphs.FinalBarsAreBars | runner/create_graphs.py:214-223 | Every bar belongs to a query both files measured and shows the size picked on each side. |
| CreateGraphs.FinalBarsCoverSharedQueries | runner/create_graphs.py:214-223 | There is a bar exactly for the queries on the axis that both files measured with at least one step. |
| CreateGraphs.CollectFinalBars | runner/create_graphs.py:210-223 | The loop of `create_join_size_graph` computes the reference bars. |
| CreateGraphs.MemoryMeansNonEmpty | runner/create_graphs.py:57-77 | A side's memory means are non-empty exactly when its file has a kept row. |
| CreateGraphs.JoinSizesHaveSteps | runner/create_graphs.py:53 | Every query in a join table has at least one step. |
| CreateGraphs.JoinGraphNeedsSharedQuery | runner/create_graphs.py:203-227 | The join graph has a bar exactly when some query is in both tables. |
| CreateGraphs.DrawnFrom | runner/create_graphs.py:334-344 | Which optional graphs are drawn from the loaded tables; WhichGraphsAreDrawn and JoinGraphNeedsSharedQuery state when each is. |
| CreateGraphs.GraphsDrawn | runner/create_graphs.py:328-344 | The graphs `main` writes; WhichGraphsAreDrawn states its property. |
| CreateGraphs.WhichGraphsAreDrawn | runner/create_graphs.py:328-344 | The performance and speedup graphs are always drawn. Memory and summary are drawn exactly when each memory file has a kept row. The join graph is drawn exactly when a query is in both join files. |
| CreateGraphsForScaleFactor.EveryMeasuredRowIsAveraged | runner/create_graphs_for_scale_factor.py:69-78 | Without any status filter, each row adds its MB value, or its kB value / 1024, to its query's list. A row with neither column adds nothing. |
| CreateGraphsForScaleFactor.SentinelAndSuccessSamples | runner/create_graphs_for_scale_factor.py:72-78 | A failed row and a 201 MB row give the samples [−1, 201]. |
| CreateGraphsForScaleFactor.SentinelAndSuccessWithStatusSamples | runner/create_graphs.py:68-71 | The same two rows give [201] in the other graph script. |
| CreateGraphsForScaleFactor.SentinelIsAveragedIn | runner/create_graphs_for_scale_factor.py:69-81 | The sentinel is averaged in: the mean is 100 MB here, while the other script plots 201 MB. |
| CreateGraphsForScaleFactor.StepSizeIsLastRow | runner/create_graphs_for_scale_factor.py:53-55 | A step's size is the count of the last row of that query and step number. |
| CreateGraphsForScaleFactor.DecimalTextInjective | runner/create_graphs_for_scale_factor.py:53 | Distinct step numbers have distinct texts, so keying by text loses no step. |
| CreateGraphsForScaleFactor.Aligned | runner/create_graphs_for_scale_factor.py:217-218 | `[sizes.get(s, 0) for s in steps]`: one value per step, 0 for a missing step. |
| CreateGraphsForScaleFactor.Panel | runner/create_graphs_for_scale_factor.py:212-218 | A query measured on both sides has a strictly ascending step axis holding exactly the steps of either side, each side aligned to it with 0 for a missing step. A one-sided query gets an empty panel. |
| CreateGraphsForScaleFactor.Panels | runner/create_graphs_for_scale_factor.py:212-234 | One panel per query on the axis, each the Panel of that query; PanelsOnePerQuery states that the axis holds each measured query once, in ascending order. |
| CreateGraphsForScaleFactor.PanelsOnePerQuery | runner/create_graphs_for_scale_factor.py:201-218 | The join graph has one panel per query either side measured, each query once, in ascending order. |
| CreateGraphsForScaleFactor.StepTenTextBeforeStepTwo | runner/create_graphs_for_scale_factor.py:216 | "10" sorts before "2". |
| CreateGraphsForScaleFactor.StepTenDrawnBeforeStepTwo | runner/create_graphs_for_scale_factor.py:216-218 | On a panel, step 10 would be drawn to the left of step 2. No catalog query has ten probes (q4.1 has nine). |
| CreateGraphsForScaleFactor.StartWith | runner/create_graphs_for_scale_factor.py:287-292 | Usage and exit status 1 exactly when no argument is given; otherwise the run for the first argument. OnlyFirstArgumentCounts states that later arguments are ignored. |
| CreateGraphsForScaleFactor.OnlyFirstArgumentCounts | runner/create_graphs_for_scale_factor.py:287-292 | Two command lines with a scale factor start the same run exactly when their first arguments agree. Later arguments are ignored. |
| CreateGraphsForScaleFactor.ScaleFactorsKeepApart | runner/create_graphs_for_scale_factor.py:295-296 | Different scale factors have different results directories and different graphs directories. No graphs directory is a results directory. |
| CreateGraphsForScaleFactor.MemoryMeansNonEmpty | runner/create_graphs_for_scale_factor.py:59-83 | A side's memory means are non-empty exactly when its file has a row with a memory column. |
| CreateGraphsForScaleFactor.JoinSizesNonEmpty | runner/create_graphs_for_scale_factor.py:41-57 | A side's join table is non-empty exactly when its file exists and has a row. |
| CreateGraphsForScaleFactor.GraphsDrawn | runner/create_graphs_for_scale_factor.py:319-335 | The graphs `main` writes; WhichGraphsAreDrawn states its property. |
| CreateGraphsForScaleFactor.WhichGraphsAreDrawn | runner/create_graphs_for_scale_factor.py:319-335 | Performance and speedup are always drawn. Memory and summary are drawn exactly when each memory file has a measured row, failed runs included. The join graph is drawn exactly when each join file has a row, shared query or not. |

## Left out

- Spawning processes, pipes, the 300 s and 60 s timeouts, `time.sleep(0.1)`, `time.perf_counter` and `/proc` are not modelled. What each invocation gave is an oracle parameter.
- The SQL text of the catalogs is opaque: a query's or probe's result comes from the oracle.
- CSV reading and writing, `float()`/`int()` of cells and the text formatting of numbers (`:.6f`, `:.2f`) are left out. Rows are records with numbers already parsed. Only `create_graphs.py`'s `!= '-1'` test reads a cell's text, so that row carries the text too.
- CreateGraphs.MemoryCsvRow and CreateGraphsForScaleFactor.MemoryCsvRow: the MB figure a graph script reads is not tied to the bytes figure. The rows `MeasureMemory.RowFor` writes do tie them: MB = bytes / 1024².
- `argparse`, `Path`, `mkdir` and the fixed `../results` paths are left out. Options are given as values. Only the attribute-name rule behind the `--duckdb-bin` finding is modelled.
- CreateGraphsForScaleFactor.ResultsDir and CreateGraphsForScaleFactor.GraphsDir: directories are strings relative to the project root. `pathlib`'s normalisation of `.`, `..` and repeated `/` is not modelled.
- Printed progress, report and error messages and their layout are left out. The report is a record of the values it prints.
- `analyze_results.py`'s `main` (default paths, the file-exists exits) is left out. The model starts from the two loaded files.
- matplotlib, numpy, figure layout, value labels and hex colour codes are left out. Graphs are the data they plot, and colours are an enumeration.
- Floating point: means, ratios and sums are exact reals. Rounding, `inf` and `nan` are not modelled.
- Stats.GuardedVariance: models the square of `stdev`. There is no square root over reals.
- Text.FirstDigitRun: `\d` is taken as the ASCII digits only, while Python also matches other Unicode decimal digits.
- The text of `str(e)` in an "exception: …" status is a given string of the oracle.
- MeasureMemory.RunFallback: the child's exit code and stderr are oracle values. Whether a snapshot was taken while the child lived is given by the snapshot sequence.
- RunExperiments.RunQuery: the `RuntimeError`, and the `OSError` of a binary that cannot be started, are modelled as the run's failure message. The exception's type and the traceback Python prints are left out.
- The graphs draw nothing beyond `GraphData.PerformanceBars`, `GraphData.MemoryBars`, `GraphData.SummaryBars`, `GraphData.SpeedupSeries` and the join panels and bars. Their titles, labels and annotations are left out.

## Findings

| source | as written | input that shows it | evidently intended | confidence | as-written member | corrected member |
|---|---|---|---|---|---|---|
| runner/run_experiments.py:195 | `args.duckdb-bin` parses as `args.duckdb - bin`, and the namespace has no `duckdb` attribute | any command line argparse accepts, e.g. `--mode baseline --duckdb-bin ./duckdb` | `args.duckdb_bin`, the path given to `--duckdb-bin` | not executed | RunExperiments.BinPathAsWrittenAlwaysFails | RunExperiments.BinPath |
| runner/create_graphs.py:217-222 | the "final" join size is the size under the step name that sorts last | q1.1 with steps date_filtered, lineorder_filtered, join1: "lineorder_filtered" sorts last, so the filtered lineorder count is drawn instead of the join's (q2.1, q3.1 and q4.1 likewise pick "supplier_filtered") | the size of the step with the greatest step number, the last probe written | not executed | CreateGraphs.FinalByNameMissesFinalJoin | CreateGraphs.FinalByStepFindsFinalJoin |
