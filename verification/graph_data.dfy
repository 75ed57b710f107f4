/**
 * What runner/create_graphs.py and runner/create_graphs_for_scale_factor.py
 * share, line for line: the performance loader, the optional results files,
 * the sorted union of queries every graph walks, the speedup series with its
 * 1.0 fallback, and the bar heights with an absent query drawn as 0.
 */
module GraphData {
  import opened Wrappers
  import opened Text
  import opened Stats
  import opened Grouping
  import AnalyzeResults

  /** A results file the scripts read: missing, or its rows as the CSV reader yields them. */
  datatype CsvFile<R> = Absent | Present(rows: seq<R>)

  /** The loaders that check `Path(filename).exists()` treat a missing file as one without rows. */
  function RowsOrNone<R>(f: CsvFile<R>): (rows: seq<R>)
    ensures f.Absent? ==> rows == []
    ensures f.Present? ==> rows == f.rows
  {
    if f.Present? then f.rows else []
  }

  /**
   * One side of the loaders that check `Path(filename).exists()` and average
   * a value per query: a missing file gives no means.
   */
  method LoadSide<R>(f: CsvFile<R>, sample: R -> Option<(string, real)>) returns (avg: PerQuery)
    ensures avg == Means(RowsOrNone(f), sample)
  {
    if f.Absent? {
      assert KeysOf(RowsOrNone(f), sample) == {};
      return map[];
    }
    avg := LoadMeans(f.rows, sample);
  }

  /** One side of `load_join_size_data`: a missing file gives an empty table. */
  method LoadNestedSide<R, K(==), V>(f: CsvFile<R>, entry: R -> (string, K, V)) returns (table: map<string, map<K, V>>)
    ensures table == Nested(RowsOrNone(f), entry)
  {
    if f.Absent? {
      return map[];
    }
    table := GroupNested(f.rows, entry);
  }

  /**
   * A row of a join-size CSV: `query`, the step number the prober wrote in
   * the `step` column, `step_name` and `int(row_count)`.
   */
  datatype JoinCsvRow = JoinCsvRow(query: string, step: nat, stepName: string, rowCount: int)

  // ---------------------------------------------------------------------------
  // load_performance_data

  /** The per-mode mean times, keyed by query. */
  type PerQuery = map<string, real>

  /**
   * `load_performance_data`: both files are opened unconditionally, so a
   * missing one raises; otherwise the mean time per query of each file.
   */
  function PerformanceData(baseline: CsvFile<AnalyzeResults.TimingRow>, rpt: CsvFile<AnalyzeResults.TimingRow>): Result<(PerQuery, PerQuery)>
  {
    if baseline.Absent? || rpt.Absent? then Err("FileNotFoundError")
    else Ok((Means(baseline.rows, AnalyzeResults.TimingSample), Means(rpt.rows, AnalyzeResults.TimingSample)))
  }

  /** The two passes of `load_performance_data`, one per file. */
  method LoadPerformanceData(baseline: CsvFile<AnalyzeResults.TimingRow>, rpt: CsvFile<AnalyzeResults.TimingRow>)
    returns (res: Result<(PerQuery, PerQuery)>)
    ensures res == PerformanceData(baseline, rpt)
  {
    if baseline.Absent? {
      return Err("FileNotFoundError");
    }
    var b := LoadMeans(baseline.rows, AnalyzeResults.TimingSample);
    if rpt.Absent? {
      return Err("FileNotFoundError");
    }
    var r := LoadMeans(rpt.rows, AnalyzeResults.TimingSample);
    return Ok((b, r));
  }

  /**
   * Unlike the other loaders, the performance loader fails on a missing file;
   * with both present, a query has a mean exactly when a row names it.
   */
  lemma PerformanceDataNeedsBothFiles(baseline: CsvFile<AnalyzeResults.TimingRow>, rpt: CsvFile<AnalyzeResults.TimingRow>, q: string)
    ensures PerformanceData(baseline, rpt).Err? <==> baseline.Absent? || rpt.Absent?
    ensures PerformanceData(baseline, rpt).Ok? ==>
              (q in PerformanceData(baseline, rpt).value.0 <==> q in AnalyzeResults.QueryColumn(baseline.rows))
  {
    if baseline.Present? && rpt.Present? {
      MeansOfSamples(baseline.rows, AnalyzeResults.TimingSample, q);
      var rows := baseline.rows;
      if q in AnalyzeResults.QueryColumn(rows) {
        var i :| 0 <= i < |rows| && AnalyzeResults.QueryColumn(rows)[i] == q;
        assert AnalyzeResults.TimingSample(rows[i]).value.0 == q;
      }
    }
  }

  // ---------------------------------------------------------------------------
  // The x axis and the speedup series

  /** `sorted(set(baseline_avg.keys()) | set(rpt_avg.keys()))` */
  function Queries<V>(b: map<string, V>, r: map<string, V>): (qs: seq<string>)
    ensures StrictlyAscending(qs)
    ensures forall q :: q in qs <==> q in b || q in r
  {
    SortedSet(b.Keys + r.Keys)
  }

  /** The speedup drawn for one query: b/r when both modes have it and r > 0, else 1.0. */
  function GraphSpeedup(b: PerQuery, r: PerQuery, q: string): real
  {
    if q in b && q in r && r[q] > 0.0 then b[q] / r[q] else 1.0
  }

  /**
   * Where both means exist and the RPT mean is positive, the graph and the
   * text report agree; where the RPT mean is not positive the report prints 0
   * and the graph draws 1.0; a query missing on one side is drawn at 1.0.
   */
  lemma GraphSpeedupAgainstReport(b: PerQuery, r: PerQuery, q: string)
    ensures q in b && q in r && r[q] > 0.0 ==> GraphSpeedup(b, r, q) == AnalyzeResults.Speedup(b[q], r[q])
    ensures q in b && q in r && r[q] <= 0.0 ==>
              GraphSpeedup(b, r, q) == 1.0 && AnalyzeResults.Speedup(b[q], r[q]) == 0.0
    ensures !(q in b && q in r) ==> GraphSpeedup(b, r, q) == 1.0
  {
    if q in b && q in r && r[q] > 0.0 {
      var s := AnalyzeResults.Speedup(b[q], r[q]);
      assert s * r[q] == b[q];
      assert (b[q] / r[q]) * r[q] == b[q];
    }
  }

  /** The speedup loop of `create_speedup_graph` over the given x axis. */
  method SpeedupsOver(b: PerQuery, r: PerQuery, queries: seq<string>) returns (speedups: seq<real>)
    ensures |speedups| == |queries|
    ensures forall i :: 0 <= i < |queries| ==> speedups[i] == GraphSpeedup(b, r, queries[i])
  {
    speedups := [];
    for i := 0 to |queries|
      invariant |speedups| == i
      invariant forall k :: 0 <= k < i ==> speedups[k] == GraphSpeedup(b, r, queries[k])
    {
      var q := queries[i];
      if q in b && q in r && r[q] > 0.0 {
        speedups := speedups + [b[q] / r[q]];
      } else {
        speedups := speedups + [1.0];
      }
    }
  }

  /** The x axis and one speedup per query on it. */
  method SpeedupSeries(b: PerQuery, r: PerQuery) returns (queries: seq<string>, speedups: seq<real>)
    ensures queries == Queries(b, r)
    ensures |speedups| == |queries|
    ensures forall i :: 0 <= i < |queries| ==> speedups[i] == GraphSpeedup(b, r, queries[i])
  {
    queries := Queries(b, r);
    speedups := SpeedupsOver(b, r, queries);
  }

  // ---------------------------------------------------------------------------
  // Bar heights

  /** `[avg.get(q, 0) * scale for q in queries]` */
  function Bars(avg: PerQuery, queries: seq<string>, scale: real): (heights: seq<real>)
    ensures |heights| == |queries|
    ensures forall i :: 0 <= i < |queries| ==> queries[i] !in avg ==> heights[i] == 0.0
    ensures forall i :: 0 <= i < |queries| ==> queries[i] in avg ==> heights[i] == avg[queries[i]] * scale
  {
    if queries == [] then []
    else
      Bars(avg, queries[..|queries| - 1], scale)
      + [if queries[|queries| - 1] in avg then avg[queries[|queries| - 1]] * scale else 0.0]
  }

  /** Performance bars are in milliseconds. */
  const MillisecondsPerSecond: real := 1000.0

  /** The x axis of a bar graph and the baseline and RPT bar over each query on it. */
  datatype BarPairs = BarPairs(queries: seq<string>, baseline: seq<real>, rpt: seq<real>)

  /** `create_performance_graph`: mean seconds drawn in milliseconds over the union of both sides' queries. */
  function PerformanceBars(b: PerQuery, r: PerQuery): BarPairs
  {
    var qs := Queries(b, r);
    BarPairs(qs, Bars(b, qs, MillisecondsPerSecond), Bars(r, qs, MillisecondsPerSecond))
  }

  /** `create_memory_graph`: mean megabytes drawn as they are over the union of both sides' queries. */
  function MemoryBars(b: PerQuery, r: PerQuery): BarPairs
  {
    var qs := Queries(b, r);
    BarPairs(qs, Bars(b, qs, 1.0), Bars(r, qs, 1.0))
  }

  /**
   * `create_summary_graph`: both panels share the axis of the performance
   * means; the time panel is in milliseconds and the memory panel in
   * megabytes.
   */
  function SummaryBars(bPerf: PerQuery, rPerf: PerQuery, bMem: PerQuery, rMem: PerQuery): (BarPairs, BarPairs)
  {
    var qs := Queries(bPerf, rPerf);
    (BarPairs(qs, Bars(bPerf, qs, MillisecondsPerSecond), Bars(rPerf, qs, MillisecondsPerSecond)),
     BarPairs(qs, Bars(bMem, qs, 1.0), Bars(rMem, qs, 1.0)))
  }

  /** Every query on the axis has a bar on each side, the side's mean scaled by `scale` or 0 where that side lacks it. */
  predicate ScaledPairs(p: BarPairs, b: PerQuery, r: PerQuery, scale: real)
  {
    |p.baseline| == |p.queries| && |p.rpt| == |p.queries|
    && (forall i :: 0 <= i < |p.queries| ==> p.baseline[i] == (if p.queries[i] in b then b[p.queries[i]] * scale else 0.0))
    && (forall i :: 0 <= i < |p.queries| ==> p.rpt[i] == (if p.queries[i] in r then r[p.queries[i]] * scale else 0.0))
  }

  /**
   * The performance graph has one pair of bars per query either side timed,
   * in ascending order, in milliseconds: a query timed on one side only is
   * drawn as a 0 bar beside the other side's mean times 1000.
   */
  lemma PerformanceBarsInMilliseconds(b: PerQuery, r: PerQuery)
    ensures StrictlyAscending(PerformanceBars(b, r).queries)
    ensures forall q :: q in PerformanceBars(b, r).queries <==> q in b || q in r
    ensures ScaledPairs(PerformanceBars(b, r), b, r, 1000.0)
  {
  }

  /** The memory graph draws the megabyte means unscaled, with a 0 bar where a side lacks the query. */
  lemma MemoryBarsUnscaled(b: PerQuery, r: PerQuery)
    ensures StrictlyAscending(MemoryBars(b, r).queries)
    ensures forall q :: q in MemoryBars(b, r).queries <==> q in b || q in r
    ensures ScaledPairs(MemoryBars(b, r), b, r, 1.0)
  {
  }

  /**
   * The summary's memory panel follows the performance axis: a query with a
   * memory mean but no time on either side is not drawn, and a timed query
   * without a memory mean on a side is drawn there as 0 megabytes.
   */
  lemma SummaryMemoryOnPerformanceAxis(bPerf: PerQuery, rPerf: PerQuery, bMem: PerQuery, rMem: PerQuery)
    ensures SummaryBars(bPerf, rPerf, bMem, rMem).1.queries == PerformanceBars(bPerf, rPerf).queries
    ensures SummaryBars(bPerf, rPerf, bMem, rMem).0 == PerformanceBars(bPerf, rPerf)
    ensures forall q :: q in bMem && q !in bPerf && q !in rPerf ==> q !in SummaryBars(bPerf, rPerf, bMem, rMem).1.queries
    ensures ScaledPairs(SummaryBars(bPerf, rPerf, bMem, rMem).1, bMem, rMem, 1.0)
  {
  }
}
