/**
 * runner/create_graphs_for_scale_factor.py: the per-scale-factor variant of
 * the graph script. It shares the performance loader and the speedup series
 * with runner/create_graphs.py (module GraphData) but differs in three ways
 * modelled here: the memory loader averages every row, sentinels included;
 * join sizes are keyed by the text of the `step` column, so steps are laid
 * out in string order; and the join graph shows every step of every query
 * measured on both sides, rather than one "final" size.
 */
module CreateGraphsForScaleFactor {
  import opened Wrappers
  import opened Text
  import opened Stats
  import opened Grouping
  import opened GraphData
  import CreateGraphs
  import AnalyzeResults

  // ---------------------------------------------------------------------------
  // load_memory_data

  /**
   * A memory CSV row as `csv.DictReader` yields it: the query and, when the
   * file has those columns, the `float` values of `peak_memory_mb` and
   * `peak_memory_kb`.
   */
  datatype MemoryCsvRow = MemoryCsvRow(query: string, peakMb: Option<real>, peakKb: Option<real>)

  /** Megabytes when the row has them, else kilobytes / 1024; a row with neither column is skipped. */
  function MemorySample(row: MemoryCsvRow): Option<(string, real)>
  {
    if row.peakMb.Some? then Some((row.query, row.peakMb.value))
    else if row.peakKb.Some? then Some((row.query, row.peakKb.value / 1024.0))
    else None
  }

  /** One side of `load_memory_data`; a missing file gives no means. */
  function MemoryMeans(f: CsvFile<MemoryCsvRow>): PerQuery
  {
    Means(RowsOrNone(f), MemorySample)
  }

  /**
   * There is no status filter: every row with a memory column adds its value
   * to its query's list (megabytes taken as they are, kilobytes divided by
   * 1024), and a row with neither column adds nothing.
   */
  lemma EveryMeasuredRowIsAveraged(rows: seq<MemoryCsvRow>, row: MemoryCsvRow)
    ensures row.peakMb.Some? ==>
              SamplesFor(rows + [row], MemorySample, row.query) == SamplesFor(rows, MemorySample, row.query) + [row.peakMb.value]
    ensures row.peakMb.None? && row.peakKb.Some? ==>
              SamplesFor(rows + [row], MemorySample, row.query) == SamplesFor(rows, MemorySample, row.query) + [row.peakKb.value / 1024.0]
    ensures row.peakMb.None? && row.peakKb.None? ==>
              forall q :: SamplesFor(rows + [row], MemorySample, q) == SamplesFor(rows, MemorySample, q)
  {
    SamplesForSnoc(rows, row, MemorySample, row.query);
    forall q ensures row.peakMb.None? && row.peakKb.None? ==> SamplesFor(rows + [row], MemorySample, q) == SamplesFor(rows, MemorySample, q) {
      SamplesForSnoc(rows, row, MemorySample, q);
    }
  }

  /** A failed run of q, written with the -1 sentinel, followed by a successful one using 201 MB. */
  function SentinelAndSuccess(q: string): seq<MemoryCsvRow>
  {
    [MemoryCsvRow(q, Some(-1.0), None), MemoryCsvRow(q, Some(201.0), None)]
  }

  /** The same two runs as the other graph script reads them. */
  function SentinelAndSuccessWithStatus(q: string): seq<CreateGraphs.MemoryCsvRow>
  {
    [CreateGraphs.MemoryCsvRow(q, "error", "-1", -1.0), CreateGraphs.MemoryCsvRow(q, "success", "201", 201.0)]
  }

  lemma SentinelAndSuccessSamples(q: string)
    ensures SamplesFor(SentinelAndSuccess(q), MemorySample, q) == [-1.0, 201.0]
  {
    var rows := SentinelAndSuccess(q);
    assert rows[1..][1..] == [];
    assert SamplesFor(rows[1..], MemorySample, q) == [201.0] + SamplesFor(rows[1..][1..], MemorySample, q);
    assert SamplesFor(rows, MemorySample, q) == [-1.0] + SamplesFor(rows[1..], MemorySample, q);
  }

  lemma SentinelAndSuccessWithStatusSamples(q: string)
    ensures SamplesFor(SentinelAndSuccessWithStatus(q), CreateGraphs.MemorySample, q) == [201.0]
  {
    var rows := SentinelAndSuccessWithStatus(q);
    assert rows[1..][1..] == [];
    assert !CreateGraphs.Plotted(rows[0]) by { assert rows[0].status[0] == 'e'; }
    assert SamplesFor(rows[1..], CreateGraphs.MemorySample, q) == [201.0] + SamplesFor(rows[1..][1..], CreateGraphs.MemorySample, q);
    assert SamplesFor(rows, CreateGraphs.MemorySample, q) == SamplesFor(rows[1..], CreateGraphs.MemorySample, q);
  }

  lemma MeanOfSentinelAndSuccess()
    ensures Mean([-1.0, 201.0]) == 100.0
  {
    assert [-1.0, 201.0][..1] == [-1.0];
    assert [-1.0][..0] == [];
  }

  /**
   * The sentinel is averaged in: one failed and one 201 MB run give a mean of
   * 100 MB here, where the other graph script drops the failure and plots 201 MB.
   */
  lemma SentinelIsAveragedIn(q: string)
    ensures q in Means(SentinelAndSuccess(q), MemorySample)
    ensures Means(SentinelAndSuccess(q), MemorySample)[q] == 100.0
    ensures q in Means(SentinelAndSuccessWithStatus(q), CreateGraphs.MemorySample)
    ensures Means(SentinelAndSuccessWithStatus(q), CreateGraphs.MemorySample)[q] == 201.0
  {
    SentinelAndSuccessSamples(q);
    MeansOfSamples(SentinelAndSuccess(q), MemorySample, q);
    assert MemorySample(SentinelAndSuccess(q)[0]).Some?;
    MeanOfSentinelAndSuccess();
    SentinelAndSuccessWithStatusSamples(q);
    CreateGraphs.MemoryMeansCoverPlottedQueries(SentinelAndSuccessWithStatus(q), q);
    assert CreateGraphs.Plotted(SentinelAndSuccessWithStatus(q)[1]);
    assert Mean([201.0]) == 201.0 by { assert [201.0][..0] == []; }
  }

  // ---------------------------------------------------------------------------
  // load_join_size_data

  /** `sizes_dict[query][step] = size`, keyed by the text of the step column. */
  function ByStepText(row: JoinCsvRow): (string, string, int)
  {
    (row.query, DecimalText(row.step), row.rowCount)
  }

  /** One side of `load_join_size_data`; a missing file gives no sizes. */
  function JoinSizes(f: CsvFile<JoinCsvRow>): map<string, map<string, int>>
  {
    Nested(RowsOrNone(f), ByStepText)
  }

  /**
   * A step's size is the row count of the last row of that query and step
   * number; an earlier row for the same step is overwritten.
   */
  lemma StepSizeIsLastRow(rows: seq<JoinCsvRow>, q: string, step: nat)
    requires q in Nested(rows, ByStepText) && DecimalText(step) in Nested(rows, ByStepText)[q]
    ensures exists i :: 0 <= i < |rows| && rows[i].query == q && rows[i].step == step
                        && Nested(rows, ByStepText)[q][DecimalText(step)] == rows[i].rowCount
                        && forall j :: i < j < |rows| ==> !(rows[j].query == q && rows[j].step == step)
  {
    var key := DecimalText(step);
    NestedLastWins(rows, ByStepText, q, key);
    var i :| LastFor(rows, ByStepText, i, q, key) && Nested(rows, ByStepText)[q][key] == ByStepText(rows[i]).2;
    DecimalTextInjective(rows[i].step, step);
    forall j | i < j < |rows| ensures !(rows[j].query == q && rows[j].step == step) {
      assert !(ByStepText(rows[j]).0 == q && ByStepText(rows[j]).1 == key);
    }
  }

  /** Distinct step numbers have distinct texts, so keying by text loses no step. */
  lemma DecimalTextInjective(m: nat, n: nat)
    ensures DecimalText(m) == DecimalText(n) <==> m == n
  {
    assert DecimalValue(DecimalText(m)) == m && DecimalValue(DecimalText(n)) == n;
  }

  // ---------------------------------------------------------------------------
  // create_join_size_graph

  /** One panel of the join graph: its step axis and the two rows of bars. */
  datatype JoinPanel = JoinPanel(query: string, steps: seq<string>, baseline: seq<int>, rpt: seq<int>)

  /** `[sizes.get(s, 0) for s in steps]` */
  function Aligned(sizes: map<string, int>, steps: seq<string>): (vals: seq<int>)
    ensures |vals| == |steps|
    ensures forall i :: 0 <= i < |steps| ==> vals[i] == (if steps[i] in sizes then sizes[steps[i]] else 0)
  {
    if steps == [] then []
    else
      var s := steps[|steps| - 1];
      Aligned(sizes, steps[..|steps| - 1]) + [if s in sizes then sizes[s] else 0]
  }

  /**
   * The panel of one query. A query measured on both sides gets a bar pair
   * for each step either side measured, in string order of the step text,
   * with a step one side lacks drawn as 0; a query measured on one side only
   * gets an empty panel.
   */
  function Panel(bs: map<string, map<string, int>>, rs: map<string, map<string, int>>, q: string): (p: JoinPanel)
    ensures p.query == q
    ensures !(q in bs && q in rs) ==> p.steps == [] && p.baseline == [] && p.rpt == []
    ensures q in bs && q in rs ==>
              StrictlyAscending(p.steps)
              && (forall s :: s in p.steps <==> s in bs[q] || s in rs[q])
              && |p.baseline| == |p.steps| && |p.rpt| == |p.steps|
              && (forall i :: 0 <= i < |p.steps| ==> p.baseline[i] == (if p.steps[i] in bs[q] then bs[q][p.steps[i]] else 0))
              && (forall i :: 0 <= i < |p.steps| ==> p.rpt[i] == (if p.steps[i] in rs[q] then rs[q][p.steps[i]] else 0))
  {
    if q in bs && q in rs then
      var steps := Queries(bs[q], rs[q]);
      JoinPanel(q, steps, Aligned(bs[q], steps), Aligned(rs[q], steps))
    else JoinPanel(q, [], [], [])
  }

  /** One panel per query of the sorted union, in that order. */
  function Panels(bs: map<string, map<string, int>>, rs: map<string, map<string, int>>): (ps: seq<JoinPanel>)
    ensures |ps| == |Queries(bs, rs)|
    ensures forall i :: 0 <= i < |ps| ==> ps[i] == Panel(bs, rs, Queries(bs, rs)[i])
  {
    var qs := Queries(bs, rs);
    seq(|qs|, i requires 0 <= i < |qs| => Panel(bs, rs, qs[i]))
  }

  /**
   * The join graph has one panel per query either side measured, each query
   * once, in ascending query order.
   */
  lemma PanelsOnePerQuery(bs: map<string, map<string, int>>, rs: map<string, map<string, int>>)
    ensures forall i, j :: 0 <= i < j < |Panels(bs, rs)| ==> Below(Panels(bs, rs)[i].query, Panels(bs, rs)[j].query)
    ensures forall q :: (q in bs || q in rs) <==> exists i :: 0 <= i < |Panels(bs, rs)| && Panels(bs, rs)[i].query == q
  {
    var ps, qs := Panels(bs, rs), Queries(bs, rs);
    assert forall i :: 0 <= i < |ps| ==> ps[i].query == qs[i];
    forall q | q in bs || q in rs
      ensures exists i :: 0 <= i < |ps| && ps[i].query == q
    {
      var i :| 0 <= i < |qs| && qs[i] == q;
      assert ps[i].query == q;
    }
  }

  /** The step written as "10" sorts before the step written as "2". */
  lemma StepTenTextBeforeStepTwo()
    ensures DecimalText(10) == "10" && DecimalText(2) == "2"
    ensures Below("10", "2") && !Below("2", "10")
  {
    assert DecimalText(1) == "1";
    BelowAsymmetric("10", "2");
  }

  /**
   * On a panel's axis, step 10 would be drawn to the left of step 2: the axis
   * is in string order, not in step order. No query of the join-size catalog
   * reaches ten probes (q4.1, the longest, has nine), so this shows in the
   * graph only for a results file with longer probe lists.
   */
  lemma StepTenDrawnBeforeStepTwo(bs: map<string, map<string, int>>, rs: map<string, map<string, int>>, q: string, i: nat, j: nat)
    requires q in bs && q in rs
    requires i < |Panel(bs, rs, q).steps| && Panel(bs, rs, q).steps[i] == DecimalText(2)
    requires j < |Panel(bs, rs, q).steps| && Panel(bs, rs, q).steps[j] == DecimalText(10)
    ensures j < i
  {
    StepTenTextBeforeStepTwo();
  }

  // ---------------------------------------------------------------------------
  // main

  /** How `main` starts: the usage message and exit status 1, or the scale factor it was given. */
  datatype Start = Usage(status: int) | Run(scaleFactor: string)

  /** Without an argument after the script name, `main` exits with status 1; otherwise it runs on `sys.argv[1]`. */
  function StartWith(argv: seq<string>): (s: Start)
    ensures s == Usage(1) <==> |argv| < 2
    ensures |argv| >= 2 ==> s == Run(argv[1])
  {
    if |argv| < 2 then Usage(1) else Run(argv[1])
  }

  /** `project_root / "results" / f"sf{scale_factor}"`, relative to the project root. */
  function ResultsDir(scaleFactor: string): string
  {
    "results/sf" + scaleFactor
  }

  /** `project_root / "results" / "graphs" / f"sf{scale_factor}"`, relative to the project root. */
  function GraphsDir(scaleFactor: string): string
  {
    "results/graphs/sf" + scaleFactor
  }

  /**
   * Only `sys.argv[1]` picks the run: two invocations with a scale factor
   * start the same run exactly when their first arguments agree, whatever
   * follows them.
   */
  lemma OnlyFirstArgumentCounts(argv: seq<string>, argv': seq<string>)
    requires |argv| >= 2 && |argv'| >= 2
    ensures StartWith(argv) == StartWith(argv') <==> argv[1] == argv'[1]
  {
  }

  /**
   * Two different scale factors read from and write to different
   * directories, and no scale factor's graphs directory is any scale
   * factor's results directory.
   */
  lemma ScaleFactorsKeepApart(a: string, b: string)
    ensures ResultsDir(a) == ResultsDir(b) <==> a == b
    ensures GraphsDir(a) == GraphsDir(b) <==> a == b
    ensures ResultsDir(a) != GraphsDir(b)
  {
    if ResultsDir(a) == ResultsDir(b) {
      assert a == ResultsDir(a)[10..] && b == ResultsDir(b)[10..];
    }
    if GraphsDir(a) == GraphsDir(b) {
      assert a == GraphsDir(a)[17..] && b == GraphsDir(b)[17..];
    }
    assert ResultsDir(a)[8] == 's' && GraphsDir(b)[8] == 'g';
  }

  /** The results files of one scale factor. */
  datatype ResultFiles = ResultFiles(
    baselinePerf: CsvFile<AnalyzeResults.TimingRow>, rptPerf: CsvFile<AnalyzeResults.TimingRow>,
    baselineMem: CsvFile<MemoryCsvRow>, rptMem: CsvFile<MemoryCsvRow>,
    baselineJoin: CsvFile<JoinCsvRow>, rptJoin: CsvFile<JoinCsvRow>)

  /**
   * `main`: a missing performance file raises before any graph is drawn; the
   * memory and summary graphs need memory means on both sides, and the join
   * graph needs join sizes on both sides, with no further check.
   */
  function GraphsDrawn(f: ResultFiles): Result<CreateGraphs.Drawn>
  {
    match PerformanceData(f.baselinePerf, f.rptPerf)
    case Err(e) => Err(e)
    case Ok(_) =>
      var memory := MemoryMeans(f.baselineMem) != map[] && MemoryMeans(f.rptMem) != map[];
      Ok(CreateGraphs.Drawn(true, true, memory, JoinSizes(f.baselineJoin) != map[] && JoinSizes(f.rptJoin) != map[], memory))
  }

  /** Some row of the file has a memory column. */
  predicate HasMeasuredRow(f: CsvFile<MemoryCsvRow>)
  {
    f.Present? && exists i :: 0 <= i < |f.rows| && MemorySample(f.rows[i]).Some?
  }

  lemma MemoryMeansNonEmpty(f: CsvFile<MemoryCsvRow>)
    ensures MemoryMeans(f) != map[] <==> HasMeasuredRow(f)
  {
    var rows := RowsOrNone(f);
    if HasMeasuredRow(f) {
      var i :| 0 <= i < |rows| && MemorySample(rows[i]).Some?;
      MeansOfSamples(rows, MemorySample, rows[i].query);
    }
    if MemoryMeans(f) != map[] {
      var q :| q in Means(rows, MemorySample);
      MeansOfSamples(rows, MemorySample, q);
    }
  }

  lemma JoinSizesNonEmpty(f: CsvFile<JoinCsvRow>)
    ensures JoinSizes(f) != map[] <==> f.Present? && f.rows != []
  {
    var rows := RowsOrNone(f);
    if rows != [] {
      NestedKeys(rows, ByStepText, rows[0].query);
      assert ByStepText(rows[0]).0 == rows[0].query;
    }
    if JoinSizes(f) != map[] {
      var q :| q in JoinSizes(f);
      NestedKeys(rows, ByStepText, q);
    }
  }

  /**
   * With both performance files present, the performance and speedup graphs
   * are always drawn; the memory and summary graphs exactly when each memory
   * file has a row with a memory column, failed runs included; the join
   * graph exactly when each join file has a row, even if no query is shared.
   */
  lemma WhichGraphsAreDrawn(f: ResultFiles)
    requires f.baselinePerf.Present? && f.rptPerf.Present?
    ensures GraphsDrawn(f).Ok?
    ensures GraphsDrawn(f).value.performance && GraphsDrawn(f).value.speedup
    ensures GraphsDrawn(f).value.memory <==> HasMeasuredRow(f.baselineMem) && HasMeasuredRow(f.rptMem)
    ensures GraphsDrawn(f).value.summary == GraphsDrawn(f).value.memory
    ensures GraphsDrawn(f).value.joinSizes <==>
              f.baselineJoin.Present? && f.baselineJoin.rows != [] && f.rptJoin.Present? && f.rptJoin.rows != []
  {
    MemoryMeansNonEmpty(f.baselineMem);
    MemoryMeansNonEmpty(f.rptMem);
    JoinSizesNonEmpty(f.baselineJoin);
    JoinSizesNonEmpty(f.rptJoin);
  }
}
