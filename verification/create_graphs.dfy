/**
 * runner/create_graphs.py: the data behind the comparison graphs — the memory
 * loader that keeps only successful measurements, the join-size loader keyed
 * by step name, the colour of each speedup bar, the "final" join size of each
 * query, and which graphs `main` draws.
 */
module CreateGraphs {
  import opened Wrappers
  import opened Text
  import opened Stats
  import opened Grouping
  import opened GraphData
  import AnalyzeResults

  // ---------------------------------------------------------------------------
  // load_memory_data

  /** A memory CSV row: `query`, `status`, the `peak_memory_mb` cell and its `float` value. */
  datatype MemoryCsvRow = MemoryCsvRow(query: string, status: string, peakMbText: string, peakMb: real)

  /** The rows the loader keeps: marked "success" and not holding the "-1" sentinel. */
  predicate Plotted(row: MemoryCsvRow)
  {
    row.status == "success" && row.peakMbText != "-1"
  }

  function MemorySample(row: MemoryCsvRow): Option<(string, real)>
  {
    if Plotted(row) then Some((row.query, row.peakMb)) else None
  }

  /**
   * A query has a memory mean exactly when some row of it was kept, and then
   * the mean is over the kept rows' values only.
   */
  lemma MemoryMeansCoverPlottedQueries(rows: seq<MemoryCsvRow>, q: string)
    ensures q in Means(rows, MemorySample) <==> exists i :: 0 <= i < |rows| && Plotted(rows[i]) && rows[i].query == q
    ensures q in Means(rows, MemorySample) ==>
              |SamplesFor(rows, MemorySample, q)| > 0 && Means(rows, MemorySample)[q] == Mean(SamplesFor(rows, MemorySample, q))
  {
    MeansOfSamples(rows, MemorySample, q);
  }

  /** A failed or sentinel row changes no list: appending one leaves every query's samples as they were. */
  lemma FailedRowAddsNothing(rows: seq<MemoryCsvRow>, row: MemoryCsvRow, q: string)
    requires !Plotted(row)
    ensures SamplesFor(rows + [row], MemorySample, q) == SamplesFor(rows, MemorySample, q)
  {
    SamplesForSnoc(rows, row, MemorySample, q);
  }

  /** Every sample averaged for q is the value of a kept row of q. */
  lemma {:induction false} MemorySamplesArePlotted(rows: seq<MemoryCsvRow>, q: string, k: nat)
    requires k < |SamplesFor(rows, MemorySample, q)|
    ensures exists i :: 0 <= i < |rows| && Plotted(rows[i]) && rows[i].query == q
                        && rows[i].peakMb == SamplesFor(rows, MemorySample, q)[k]
  {
    var head := if Plotted(rows[0]) && rows[0].query == q then [rows[0].peakMb] else [];
    assert SamplesFor(rows, MemorySample, q) == head + SamplesFor(rows[1..], MemorySample, q);
    if k >= |head| {
      MemorySamplesArePlotted(rows[1..], q, k - |head|);
      var i :| 0 <= i < |rows[1..]| && Plotted(rows[1..][i]) && rows[1..][i].query == q
               && rows[1..][i].peakMb == SamplesFor(rows[1..], MemorySample, q)[k - |head|];
      assert rows[i + 1] == rows[1..][i];
    }
  }

  // ---------------------------------------------------------------------------
  // load_join_size_data

  /** `sizes_dict[query][step_name] = row_count` */
  function ByStepName(row: JoinCsvRow): (string, string, int)
  {
    (row.query, row.stepName, row.rowCount)
  }

  /** A step's size is the row count of the last row naming that query and step. */
  lemma JoinSizeIsLastRow(rows: seq<JoinCsvRow>, q: string, name: string)
    requires q in Nested(rows, ByStepName) && name in Nested(rows, ByStepName)[q]
    ensures exists i :: 0 <= i < |rows| && rows[i].query == q && rows[i].stepName == name
                        && Nested(rows, ByStepName)[q][name] == rows[i].rowCount
                        && forall j :: i < j < |rows| ==> !(rows[j].query == q && rows[j].stepName == name)
  {
    NestedLastWins(rows, ByStepName, q, name);
    var i :| LastFor(rows, ByStepName, i, q, name) && Nested(rows, ByStepName)[q][name] == ByStepName(rows[i]).2;
    forall j | i < j < |rows| ensures !(rows[j].query == q && rows[j].stepName == name) {
      assert !(ByStepName(rows[j]).0 == q && ByStepName(rows[j]).1 == name);
    }
  }

  // ---------------------------------------------------------------------------
  // create_speedup_graph: bar colours

  datatype Colour = Green | Red | Grey

  /** `'#27ae60' if s > 1.0 else '#e74c3c' if s < 1.0 else '#95a5a6'` */
  function ColourOf(s: real): Colour
  {
    if s > 1.0 then Green else if s < 1.0 then Red else Grey
  }

  /** One colour per bar. */
  function Colours(speedups: seq<real>): (cs: seq<Colour>)
    ensures |cs| == |speedups|
    ensures forall i :: 0 <= i < |speedups| ==> (cs[i] == Green <==> speedups[i] > 1.0)
    ensures forall i :: 0 <= i < |speedups| ==> (cs[i] == Red <==> speedups[i] < 1.0)
  {
    if speedups == [] then [] else Colours(speedups[..|speedups| - 1]) + [ColourOf(speedups[|speedups| - 1])]
  }

  /**
   * A bar is green exactly when both modes measured the query, the RPT mean is
   * positive and below the baseline mean; red when positive and above; every
   * other query, one-sided ones included, is grey.
   */
  lemma ColourOfQuery(b: PerQuery, r: PerQuery, q: string)
    ensures ColourOf(GraphSpeedup(b, r, q)) == Green <==> q in b && q in r && r[q] > 0.0 && b[q] > r[q]
    ensures ColourOf(GraphSpeedup(b, r, q)) == Red <==> q in b && q in r && r[q] > 0.0 && b[q] < r[q]
    ensures ColourOf(GraphSpeedup(b, r, q)) == Grey <==> !(q in b && q in r && r[q] > 0.0) || b[q] == r[q]
  {
    if q in b && q in r && r[q] > 0.0 {
      GraphSpeedupAgainstReport(b, r, q);
      AnalyzeResults.SpeedupOrdersLikeMeans(b[q], r[q]);
    }
  }

  // ---------------------------------------------------------------------------
  // create_join_size_graph: the "final" join size

  /**
   * As written: the size under the greatest step name in string order
   * (`sorted(items, key=name)[-1]`), or 0 for no steps.
   */
  function FinalByName(steps: map<string, int>): int
  {
    if steps == map[] then 0 else steps[LastSorted(steps.Keys)]
  }

  /** The step, among `names`, with the greatest step number (the first one on a tie). */
  function LatestStep(steps: map<string, (nat, int)>, names: seq<string>): (n: string)
    requires |names| > 0
    requires forall m :: m in names ==> m in steps
    ensures n in names
    ensures forall m :: m in names ==> steps[m].0 <= steps[n].0
  {
    if |names| == 1 then names[0]
    else
      assert forall m :: m in names ==> m == names[0] || m in names[1..];
      var later := LatestStep(steps, names[1..]);
      if steps[names[0]].0 >= steps[later].0 then names[0] else later
  }

  /**
   * Corrected: the size of the step with the greatest step number, the final
   * join of the query, or 0 for no steps.
   */
  function FinalByStep(steps: map<string, (nat, int)>): (size: int)
    ensures steps == map[] ==> size == 0
    ensures steps != map[] ==> exists n :: n in steps && size == steps[n].1 && forall m :: m in steps ==> steps[m].0 <= steps[n].0
  {
    if steps == map[] then 0
    else
      var names := SortedSet(steps.Keys);
      SortedSetSize(steps.Keys);
      var n := LatestStep(steps, names);
      steps[n].1
  }

  /** `sizes_dict[query][step_name] = (step, row_count)`, the loader the corrected selection needs. */
  function ByStepNameWithStep(row: JoinCsvRow): (string, string, (nat, int))
  {
    (row.query, row.stepName, (row.step, row.rowCount))
  }

  /** The probes of q1.1 as the join-size script writes them: step 1, 2 and 3. */
  function Q11Steps(filtered: int, lineorder: int, joined: int): map<string, int>
  {
    map["date_filtered" := filtered, "lineorder_filtered" := lineorder, "join1" := joined]
  }

  function Q11Numbered(filtered: int, lineorder: int, joined: int): map<string, (nat, int)>
  {
    map["date_filtered" := (1, filtered), "lineorder_filtered" := (2, lineorder), "join1" := (3, joined)]
  }

  /** The three step names of q1.1 are distinct (they differ in their first letter). */
  lemma Q11NamesDistinct()
    ensures "date_filtered" != "lineorder_filtered" && "date_filtered" != "join1" && "join1" != "lineorder_filtered"
  {
    assert "date_filtered"[0] == 'd' && "lineorder_filtered"[0] == 'l' && "join1"[0] == 'j';
  }

  /** In string order "lineorder_filtered" comes after both other step names of q1.1. */
  lemma Q11NameOrder()
    ensures Below("join1", "lineorder_filtered") && Below("date_filtered", "lineorder_filtered")
  {
    assert "join1"[0] == 'j' && "date_filtered"[0] == 'd' && "lineorder_filtered"[0] == 'l';
  }

  /** Of three step names, the size under the one the other two sort below is picked. */
  lemma FinalByNameOfThree(steps: map<string, int>, first: string, second: string, last: string)
    requires steps.Keys == {first, second, last}
    requires Below(first, last) && Below(second, last)
    ensures FinalByName(steps) == steps[last]
  {
    BelowAsymmetric(first, last);
    BelowAsymmetric(second, last);
    var n := LastSorted(steps.Keys);
    assert n == last;
  }

  /**
   * As written, the "final join size" of q1.1 is the count of the filtered
   * lineorder table ("lineorder_filtered" sorts after "join1"), not that of
   * its join.
   */
  lemma FinalByNameMissesFinalJoin(filtered: int, lineorder: int, joined: int)
    ensures FinalByName(Q11Steps(filtered, lineorder, joined)) == lineorder
  {
    Q11NamesDistinct();
    Q11NameOrder();
    FinalByNameOfThree(Q11Steps(filtered, lineorder, joined), "date_filtered", "join1", "lineorder_filtered");
  }

  /** Of three steps, the one with the greatest step number gives the final size. */
  lemma FinalOfThreeSteps(steps: map<string, (nat, int)>, first: string, second: string, last: string)
    requires steps.Keys == {first, second, last}
    requires steps[first].0 < steps[last].0 && steps[second].0 < steps[last].0
    ensures FinalByStep(steps) == steps[last].1
  {
  }

  /** Corrected, the final join size of q1.1 is the size of its join, step 3. */
  lemma FinalByStepFindsFinalJoin(filtered: int, lineorder: int, joined: int)
    ensures FinalByStep(Q11Numbered(filtered, lineorder, joined)) == joined
  {
    Q11NamesDistinct();
    FinalOfThreeSteps(Q11Numbered(filtered, lineorder, joined), "date_filtered", "lineorder_filtered", "join1");
  }

  /** One bar pair of the join graph: the query and its two final sizes. */
  datatype FinalBar = FinalBar(query: string, baseline: int, rpt: int)

  /** Both files measured q, each with at least one step. */
  predicate Shared<V>(bs: map<string, map<string, V>>, rs: map<string, map<string, V>>, q: string)
  {
    q in bs && q in rs && bs[q] != map[] && rs[q] != map[]
  }

  /** The bars for the queries of `queries` that both files measured, with the size each side picks. */
  function FinalBars<V>(bs: map<string, map<string, V>>, rs: map<string, map<string, V>>, queries: seq<string>,
                        pick: map<string, V> -> int): seq<FinalBar>
  {
    if queries == [] then []
    else
      var q := queries[|queries| - 1];
      FinalBars(bs, rs, queries[..|queries| - 1], pick)
      + (if Shared(bs, rs, q) then [FinalBar(q, pick(bs[q]), pick(rs[q]))] else [])
  }

  /** A bar of the join graph: a query measured by both, with the size `pick` takes from each side. */
  predicate BarOf<V>(bar: FinalBar, bs: map<string, map<string, V>>, rs: map<string, map<string, V>>, pick: map<string, V> -> int)
  {
    bar.query in bs && bar.query in rs && bar.baseline == pick(bs[bar.query]) && bar.rpt == pick(rs[bar.query])
  }

  predicate HasBarFor(bars: seq<FinalBar>, q: string)
  {
    exists k :: 0 <= k < |bars| && bars[k].query == q
  }

  lemma HasBarForAppend(prev: seq<FinalBar>, tail: seq<FinalBar>, q: string)
    ensures HasBarFor(prev + tail, q) <==> HasBarFor(prev, q) || HasBarFor(tail, q)
  {
    var all := prev + tail;
    if HasBarFor(all, q) {
      var k :| 0 <= k < |all| && all[k].query == q;
      if k >= |prev| { assert tail[k - |prev|] == all[k]; }
    }
    if HasBarFor(prev, q) {
      var k :| 0 <= k < |prev| && prev[k].query == q;
      assert all[k] == prev[k];
    }
    if HasBarFor(tail, q) {
      var k :| 0 <= k < |tail| && tail[k].query == q;
      assert all[|prev| + k] == tail[k];
    }
  }

  /** Every bar of the join graph belongs to a query both files measured and shows the sizes picked on each side. */
  lemma {:induction false} FinalBarsAreBars<V>(bs: map<string, map<string, V>>, rs: map<string, map<string, V>>,
                                                 queries: seq<string>, pick: map<string, V> -> int)
    ensures forall k :: 0 <= k < |FinalBars(bs, rs, queries, pick)| ==> BarOf(FinalBars(bs, rs, queries, pick)[k], bs, rs, pick)
  {
    if queries != [] {
      var last := queries[|queries| - 1];
      FinalBarsAreBars(bs, rs, queries[..|queries| - 1], pick);
      var prev := FinalBars(bs, rs, queries[..|queries| - 1], pick);
      var tail := if Shared(bs, rs, last) then [FinalBar(last, pick(bs[last]), pick(rs[last]))] else [];
      assert FinalBars(bs, rs, queries, pick) == prev + tail;
      forall k | 0 <= k < |prev + tail| ensures BarOf((prev + tail)[k], bs, rs, pick) {
        if k < |prev| { assert (prev + tail)[k] == prev[k]; } else { assert (prev + tail)[k] == tail[k - |prev|]; }
      }
    }
  }

  /**
   * The join graph has a bar for exactly the queries on the axis that both
   * files measured with at least one step.
   */
  lemma {:induction false} FinalBarsCoverSharedQueries<V>(bs: map<string, map<string, V>>, rs: map<string, map<string, V>>,
                                                           queries: seq<string>, pick: map<string, V> -> int, q: string)
    ensures HasBarFor(FinalBars(bs, rs, queries, pick), q) <==> q in queries && Shared(bs, rs, q)
  {
    if queries != [] {
      var init := queries[..|queries| - 1];
      var last := queries[|queries| - 1];
      FinalBarsCoverSharedQueries(bs, rs, init, pick, q);
      var prev := FinalBars(bs, rs, init, pick);
      var tail := if Shared(bs, rs, last) then [FinalBar(last, pick(bs[last]), pick(rs[last]))] else [];
      assert FinalBars(bs, rs, queries, pick) == prev + tail;
      HasBarForAppend(prev, tail, q);
      assert HasBarFor(tail, q) <==> q == last && Shared(bs, rs, q) by {
        if tail != [] { assert tail[0].query == last; }
      }
      assert q in queries <==> q in init || q == last by {
        assert queries == init + [last];
      }
    }
  }

  /** The loop of `create_join_size_graph` over the sorted queries. */
  method CollectFinalBars<V>(bs: map<string, map<string, V>>, rs: map<string, map<string, V>>, queries: seq<string>,
                             pick: map<string, V> -> int) returns (bars: seq<FinalBar>)
    ensures bars == FinalBars(bs, rs, queries, pick)
  {
    bars := [];
    for i := 0 to |queries|
      invariant bars == FinalBars(bs, rs, queries[..i], pick)
    {
      assert queries[..i + 1][..i] == queries[..i];
      var q := queries[i];
      if q in bs && q in rs {
        if bs[q] != map[] && rs[q] != map[] {
          bars := bars + [FinalBar(q, pick(bs[q]), pick(rs[q]))];
        }
      }
    }
    assert queries[..|queries|] == queries;
  }

  // ---------------------------------------------------------------------------
  // main: which graphs are drawn

  /** The results files `main` reads. */
  datatype ResultFiles = ResultFiles(
    baselinePerf: CsvFile<AnalyzeResults.TimingRow>, rptPerf: CsvFile<AnalyzeResults.TimingRow>,
    baselineMem: CsvFile<MemoryCsvRow>, rptMem: CsvFile<MemoryCsvRow>,
    baselineJoin: CsvFile<JoinCsvRow>, rptJoin: CsvFile<JoinCsvRow>)

  /** The graphs written. */
  datatype Drawn = Drawn(performance: bool, speedup: bool, memory: bool, joinSizes: bool, summary: bool)

  /**
   * `main`: a missing performance file raises before any graph is drawn; the
   * memory and summary graphs need memory means on both sides, and the join
   * graph needs join sizes on both sides and a query measured by both.
   */
  function GraphsDrawn(f: ResultFiles): Result<Drawn>
  {
    match PerformanceData(f.baselinePerf, f.rptPerf)
    case Err(e) => Err(e)
    case Ok(_) => Ok(DrawnFrom(MemoryMeans(f.baselineMem), MemoryMeans(f.rptMem), JoinSizes(f.baselineJoin), JoinSizes(f.rptJoin)))
  }

  /** The gates of `main` once the performance data is loaded. */
  function DrawnFrom(bm: PerQuery, rm: PerQuery, bj: map<string, map<string, int>>, rj: map<string, map<string, int>>): Drawn
  {
    var joinBars := FinalBars(bj, rj, Queries(bj, rj), FinalByName);
    Drawn(true, true, bm != map[] && rm != map[], bj != map[] && rj != map[] && joinBars != [], bm != map[] && rm != map[])
  }

  /** One side of `load_memory_data`. */
  function MemoryMeans(f: CsvFile<MemoryCsvRow>): PerQuery
  {
    Means(RowsOrNone(f), MemorySample)
  }

  /** One side of `load_join_size_data`. */
  function JoinSizes(f: CsvFile<JoinCsvRow>): map<string, map<string, int>>
  {
    Nested(RowsOrNone(f), ByStepName)
  }

  /** Some row of the file was kept by the memory loader. */
  predicate HasPlottedRow(f: CsvFile<MemoryCsvRow>)
  {
    f.Present? && exists i :: 0 <= i < |f.rows| && Plotted(f.rows[i])
  }

  lemma MemoryMeansNonEmpty(f: CsvFile<MemoryCsvRow>)
    ensures MemoryMeans(f) != map[] <==> HasPlottedRow(f)
  {
    var rows := RowsOrNone(f);
    if HasPlottedRow(f) {
      var i :| 0 <= i < |rows| && Plotted(rows[i]);
      MemoryMeansCoverPlottedQueries(rows, rows[i].query);
    }
    if MemoryMeans(f) != map[] {
      var q :| q in Means(rows, MemorySample);
      MemoryMeansCoverPlottedQueries(rows, q);
    }
  }

  lemma JoinSizesHaveSteps(f: CsvFile<JoinCsvRow>)
    ensures forall q :: q in JoinSizes(f) ==> JoinSizes(f)[q] != map[]
  {
    forall q | q in JoinSizes(f) ensures JoinSizes(f)[q] != map[] {
      NestedInnerNonEmpty(RowsOrNone(f), ByStepName, q);
    }
  }

  /** The join graph has a bar exactly when some query appears in both tables, each with at least one step. */
  lemma JoinGraphNeedsSharedQuery<V>(bs: map<string, map<string, V>>, rs: map<string, map<string, V>>, pick: map<string, V> -> int)
    requires forall q :: q in bs ==> bs[q] != map[]
    requires forall q :: q in rs ==> rs[q] != map[]
    ensures FinalBars(bs, rs, Queries(bs, rs), pick) != [] <==> exists q :: q in bs && q in rs
  {
    var bars := FinalBars(bs, rs, Queries(bs, rs), pick);
    if exists q :: q in bs && q in rs {
      var q :| q in bs && q in rs;
      FinalBarsCoverSharedQueries(bs, rs, Queries(bs, rs), pick, q);
    }
    if bars != [] {
      FinalBarsCoverSharedQueries(bs, rs, Queries(bs, rs), pick, bars[0].query);
    }
  }

  /**
   * With both performance files present, the performance and speedup graphs
   * are always drawn; the memory and summary graphs exactly when each memory
   * file has a successful, non-sentinel row; the join graph exactly when a
   * query appears in both join files.
   */
  lemma WhichGraphsAreDrawn(f: ResultFiles)
    requires f.baselinePerf.Present? && f.rptPerf.Present?
    ensures GraphsDrawn(f).Ok?
    ensures GraphsDrawn(f).value.performance && GraphsDrawn(f).value.speedup
    ensures GraphsDrawn(f).value.memory <==> HasPlottedRow(f.baselineMem) && HasPlottedRow(f.rptMem)
    ensures GraphsDrawn(f).value.summary == GraphsDrawn(f).value.memory
    ensures GraphsDrawn(f).value.joinSizes <==> exists q :: q in JoinSizes(f.baselineJoin) && q in JoinSizes(f.rptJoin)
  {
    var bj, rj := JoinSizes(f.baselineJoin), JoinSizes(f.rptJoin);
    assert GraphsDrawn(f) == Ok(DrawnFrom(MemoryMeans(f.baselineMem), MemoryMeans(f.rptMem), bj, rj));
    MemoryMeansNonEmpty(f.baselineMem);
    MemoryMeansNonEmpty(f.rptMem);
    JoinSizesHaveSteps(f.baselineJoin);
    JoinSizesHaveSteps(f.rptJoin);
    JoinGraphNeedsSharedQuery(bj, rj, FinalByName);
  }
}
