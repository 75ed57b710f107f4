/**
 * runner/analyze_results.py: load the timing CSV of each mode, walk the sorted
 * union of query ids, report per-query means, speedup and improvement, weighted
 * totals, and a win/loss/tie tally.
 */
module AnalyzeResults {
  import opened Wrappers
  import opened Text
  import opened Stats
  import opened Grouping

  /** One timing CSV row: its `query` and `float(time_seconds)`. */
  datatype TimingRow = TimingRow(query: string, seconds: real)

  // ---------------------------------------------------------------------------
  // load_results

  /** Every timing row feeds its own query with its time. */
  function TimingSample(row: TimingRow): Option<(string, real)>
  {
    Some((row.query, row.seconds))
  }

  /** The `query` column, in file order. */
  function QueryColumn(rows: seq<TimingRow>): (col: seq<string>)
    ensures |col| == |rows|
    ensures forall i :: 0 <= i < |rows| ==> col[i] == rows[i].query
  {
    if rows == [] then [] else [rows[0].query] + QueryColumn(rows[1..])
  }

  method LoadResults(rows: seq<TimingRow>) returns (times: map<string, seq<real>>)
    ensures forall q :: q in times <==> q in QueryColumn(rows)
    ensures forall q :: q in times ==> times[q] == SamplesFor(rows, TimingSample, q)
    ensures NonEmptyGroups(times)
  {
    times := Group(rows, TimingSample);
    forall q ensures q in KeysOf(rows, TimingSample) <==> q in QueryColumn(rows) {
      if q in QueryColumn(rows) {
        var i :| 0 <= i < |rows| && QueryColumn(rows)[i] == q;
        assert TimingSample(rows[i]).value.0 == q;
      }
    }
  }

  /**
   * Exactly one sample per row: a query's list is as long as the number of
   * rows naming it (and, by SamplesFor, holds their times in file order).
   */
  lemma {:induction false} OneSamplePerRow(rows: seq<TimingRow>, q: string)
    ensures |SamplesFor(rows, TimingSample, q)| == multiset(QueryColumn(rows))[q]
  {
    if rows != [] {
      OneSamplePerRow(rows[1..], q);
      assert QueryColumn(rows) == [rows[0].query] + QueryColumn(rows[1..]);
    }
  }

  // ---------------------------------------------------------------------------
  // Per-query arithmetic

  /** `baseline_avg / rpt_avg if rpt_avg > 0 else 0` */
  function Speedup(b: real, r: real): (s: real)
    ensures r > 0.0 ==> s * r == b
    ensures r <= 0.0 ==> s == 0.0
  {
    if r > 0.0 then b / r else 0.0
  }

  /** `(baseline_avg - rpt_avg) / baseline_avg * 100 if baseline_avg > 0 else 0` */
  function Improvement(b: real, r: real): (p: real)
    ensures b > 0.0 ==> p * b == (b - r) * 100.0
    ensures b <= 0.0 ==> p == 0.0
  {
    if b > 0.0 then (b - r) / b * 100.0 else 0.0
  }

  /** With a positive RPT mean, the speedup is above, below or at 1 exactly as the means compare. */
  lemma SpeedupOrdersLikeMeans(b: real, r: real)
    requires r > 0.0
    ensures Speedup(b, r) > 1.0 <==> b > r
    ensures Speedup(b, r) < 1.0 <==> b < r
    ensures Speedup(b, r) == 1.0 <==> b == r
  {
    var s := Speedup(b, r);
    assert s * r == b;
    if s > 1.0 { assert s * r > 1.0 * r; }
    if s < 1.0 { assert s * r < 1.0 * r; }
    if b > r { assert s * r > 1.0 * r; }
    if b < r { assert s * r < 1.0 * r; }
  }

  /** With a positive baseline mean, improvement is positive exactly when RPT is faster. */
  lemma ImprovementSignLikeMeans(b: real, r: real)
    requires b > 0.0
    ensures Improvement(b, r) > 0.0 <==> b > r
    ensures Improvement(b, r) < 0.0 <==> b < r
    ensures Improvement(b, r) == 0.0 <==> b == r
  {
    var p := Improvement(b, r);
    assert p * b == (b - r) * 100.0;
    if p > 0.0 { assert p * b > 0.0; }
    if p < 0.0 { assert p * b < 0.0; }
  }

  /** Both guards passing, improvement is 100 · (1 − 1/speedup). */
  lemma ImprovementFromSpeedup(b: real, r: real)
    requires b > 0.0 && r > 0.0
    ensures Speedup(b, r) > 0.0
    ensures Improvement(b, r) == 100.0 * (1.0 - 1.0 / Speedup(b, r))
  {
    var s := Speedup(b, r);
    assert s == b / r;
    assert 1.0 / s == r / b;
    var p := Improvement(b, r);
    var q := 100.0 * (1.0 - r / b);
    assert p * b == (b - r) * 100.0;
    assert q * b == (b - r) * 100.0 by { assert (r / b) * b == r; }
    assert (p - q) * b == 0.0;
    assert p - q == ((p - q) * b) / b;
    assert q == 100.0 * (1.0 - 1.0 / s);
  }

  // ---------------------------------------------------------------------------
  // analyze_results

  datatype ReportLine =
    | Missing(query: string)
    | Compared(query: string, baselineMean: real, rptMean: real,
               baselineVariance: real, rptVariance: real,
               speedup: real, improvement: real)

  datatype Report = Report(
    queries: seq<string>,
    lines: seq<ReportLine>,
    totalBaseline: real,
    totalRpt: real,
    overallSpeedup: real,
    overallImprovement: real,
    wins: nat,
    losses: nat,
    ties: int)

  predicate Comparable(q: string, b: map<string, seq<real>>, r: map<string, seq<real>>)
  {
    q in b && q in r
  }

  predicate WellFormed(b: map<string, seq<real>>, r: map<string, seq<real>>)
  {
    NonEmptyGroups(b) && NonEmptyGroups(r)
  }

  /** The report line of one query. */
  function LineFor(q: string, b: map<string, seq<real>>, r: map<string, seq<real>>): (line: ReportLine)
    requires WellFormed(b, r)
    ensures line.query == q
    ensures line.Missing? <==> !Comparable(q, b, r)
    ensures line.Compared? ==> line.baselineMean == Mean(b[q]) && line.rptMean == Mean(r[q])
    ensures line.Compared? ==> line.speedup == Speedup(line.baselineMean, line.rptMean)
    ensures line.Compared? ==> line.improvement == Improvement(line.baselineMean, line.rptMean)
    ensures line.Compared? && |b[q]| <= 1 ==> line.baselineVariance == 0.0
    ensures line.Compared? && |r[q]| <= 1 ==> line.rptVariance == 0.0
  {
    if !Comparable(q, b, r) then Missing(q)
    else
      var bm := Mean(b[q]);
      var rm := Mean(r[q]);
      Compared(q, bm, rm, GuardedVariance(b[q]), GuardedVariance(r[q]), Speedup(bm, rm), Improvement(bm, rm))
  }

  /** Σ of baseline means over the comparable queries of qs. */
  function BaselineTotal(qs: seq<string>, b: map<string, seq<real>>, r: map<string, seq<real>>): real
    requires WellFormed(b, r)
  {
    if qs == [] then 0.0
    else
      var q := qs[|qs| - 1];
      BaselineTotal(qs[..|qs| - 1], b, r) + (if Comparable(q, b, r) then Mean(b[q]) else 0.0)
  }

  /** Σ of RPT means over the comparable queries of qs. */
  function RptTotal(qs: seq<string>, b: map<string, seq<real>>, r: map<string, seq<real>>): real
    requires WellFormed(b, r)
  {
    if qs == [] then 0.0
    else
      var q := qs[|qs| - 1];
      RptTotal(qs[..|qs| - 1], b, r) + (if Comparable(q, b, r) then Mean(r[q]) else 0.0)
  }

  /** Comparable queries whose baseline mean is above the RPT mean. */
  function Wins(qs: seq<string>, b: map<string, seq<real>>, r: map<string, seq<real>>): nat
    requires WellFormed(b, r)
  {
    if qs == [] then 0
    else
      var q := qs[|qs| - 1];
      Wins(qs[..|qs| - 1], b, r) + (if Comparable(q, b, r) && Mean(b[q]) > Mean(r[q]) then 1 else 0)
  }

  /** Comparable queries whose baseline mean is below the RPT mean. */
  function Losses(qs: seq<string>, b: map<string, seq<real>>, r: map<string, seq<real>>): nat
    requires WellFormed(b, r)
  {
    if qs == [] then 0
    else
      var q := qs[|qs| - 1];
      Losses(qs[..|qs| - 1], b, r) + (if Comparable(q, b, r) && Mean(b[q]) < Mean(r[q]) then 1 else 0)
  }

  /** Queries reported MISSING. */
  function MissingCount(qs: seq<string>, b: map<string, seq<real>>, r: map<string, seq<real>>): nat
  {
    if qs == [] then 0
    else MissingCount(qs[..|qs| - 1], b, r) + (if Comparable(qs[|qs| - 1], b, r) then 0 else 1)
  }

  /** Comparable queries with equal means. */
  function EvenCount(qs: seq<string>, b: map<string, seq<real>>, r: map<string, seq<real>>): nat
    requires WellFormed(b, r)
  {
    if qs == [] then 0
    else
      var q := qs[|qs| - 1];
      EvenCount(qs[..|qs| - 1], b, r) + (if Comparable(q, b, r) && Mean(b[q]) == Mean(r[q]) then 1 else 0)
  }

  /** The body of the report loop for one query: its line and what it adds to each total. */
  method CompareQuery(q: string, baseline: map<string, seq<real>>, rpt: map<string, seq<real>>)
    returns (line: ReportLine, addBaseline: real, addRpt: real)
    requires WellFormed(baseline, rpt)
    ensures line == LineFor(q, baseline, rpt)
    ensures addBaseline == if Comparable(q, baseline, rpt) then Mean(baseline[q]) else 0.0
    ensures addRpt == if Comparable(q, baseline, rpt) then Mean(rpt[q]) else 0.0
  {
    if q !in baseline || q !in rpt {
      return Missing(q), 0.0, 0.0;
    }
    var baselineAvg := Mean(baseline[q]);
    var rptAvg := Mean(rpt[q]);
    var baselineVar := if |baseline[q]| > 1 then GuardedVariance(baseline[q]) else 0.0;
    var rptVar := if |rpt[q]| > 1 then GuardedVariance(rpt[q]) else 0.0;
    var speedup := if rptAvg > 0.0 then baselineAvg / rptAvg else 0.0;
    var improvement := if baselineAvg > 0.0 then (baselineAvg - rptAvg) / baselineAvg * 100.0 else 0.0;
    line := Compared(q, baselineAvg, rptAvg, baselineVar, rptVar, speedup, improvement);
    addBaseline, addRpt := baselineAvg, rptAvg;
  }

  /** `analyze_results`: the report over `sorted(set(baseline) | set(rpt))`. */
  method Analyze(baseline: map<string, seq<real>>, rpt: map<string, seq<real>>) returns (report: Report)
    requires WellFormed(baseline, rpt)
    ensures report.queries == SortedSet(baseline.Keys + rpt.Keys)
    ensures ReportOver(report, report.queries, baseline, rpt)
  {
    report := Walk(SortedSet(baseline.Keys + rpt.Keys), baseline, rpt);
  }

  /** What the report over the query list qs holds. */
  predicate ReportOver(report: Report, qs: seq<string>, b: map<string, seq<real>>, r: map<string, seq<real>>)
    requires WellFormed(b, r)
  {
    && report.queries == qs
    && |report.lines| == |qs|
    && (forall i :: 0 <= i < |qs| ==> report.lines[i] == LineFor(qs[i], b, r))
    && report.totalBaseline == BaselineTotal(qs, b, r)
    && report.totalRpt == RptTotal(qs, b, r)
    && report.overallSpeedup == Speedup(report.totalBaseline, report.totalRpt)
    && report.overallImprovement == Improvement(report.totalBaseline, report.totalRpt)
    && report.wins == Wins(qs, b, r)
    && report.losses == Losses(qs, b, r)
    && report.ties == |qs| - report.wins - report.losses
  }

  /** The loop of `analyze_results` over the query list qs, totals accumulated as it goes. */
  method Walk(qs: seq<string>, baseline: map<string, seq<real>>, rpt: map<string, seq<real>>) returns (report: Report)
    requires WellFormed(baseline, rpt)
    ensures ReportOver(report, qs, baseline, rpt)
  {
    var lines: seq<ReportLine> := [];
    var totalBaseline, totalRpt := 0.0, 0.0;
    var i := 0;
    while i < |qs|
      invariant 0 <= i <= |qs|
      invariant |lines| == i
      invariant forall k :: 0 <= k < i ==> lines[k] == LineFor(qs[k], baseline, rpt)
      invariant totalBaseline == BaselineTotal(qs[..i], baseline, rpt)
      invariant totalRpt == RptTotal(qs[..i], baseline, rpt)
    {
      assert qs[..i + 1][..i] == qs[..i];
      var line, addBaseline, addRpt := CompareQuery(qs[i], baseline, rpt);
      lines := lines + [line];
      totalBaseline := totalBaseline + addBaseline;
      totalRpt := totalRpt + addRpt;
      i := i + 1;
    }
    assert qs[..i] == qs;
    var overallSpeedup := Speedup(totalBaseline, totalRpt);
    var overallImprovement := Improvement(totalBaseline, totalRpt);
    var wins := Wins(qs, baseline, rpt);
    var losses := Losses(qs, baseline, rpt);
    report := Report(qs, lines, totalBaseline, totalRpt, overallSpeedup, overallImprovement,
                     wins, losses, |qs| - wins - losses);
  }

  // ---------------------------------------------------------------------------
  // Properties of the report

  /**
   * Every query is exactly one of win, loss, equal or MISSING; so
   * `ties = len(all_queries) - wins - losses` counts the MISSING queries as ties.
   */
  lemma {:induction false} TallyPartition(qs: seq<string>, b: map<string, seq<real>>, r: map<string, seq<real>>)
    requires WellFormed(b, r)
    ensures Wins(qs, b, r) + Losses(qs, b, r) + EvenCount(qs, b, r) + MissingCount(qs, b, r) == |qs|
    ensures |qs| - Wins(qs, b, r) - Losses(qs, b, r) == EvenCount(qs, b, r) + MissingCount(qs, b, r)
  {
    if qs != [] {
      TallyPartition(qs[..|qs| - 1], b, r);
    }
  }

  /**
   * A query whose RPT mean is 0 and whose baseline mean is positive is tallied
   * as a win, yet the zero guard reports its speedup as 0, which the report
   * colours as slower.
   */
  lemma ZeroRptMeanWinReportsZeroSpeedup(q: string, b: map<string, seq<real>>, r: map<string, seq<real>>)
    requires WellFormed(b, r) && Comparable(q, b, r)
    requires Mean(r[q]) == 0.0 && Mean(b[q]) > 0.0
    ensures LineFor(q, b, r).Compared? && LineFor(q, b, r).speedup == 0.0
    ensures Wins([q], b, r) == 1 && Losses([q], b, r) == 0
  {
    assert [q][..0] == [];
  }

  /** Inserting a one-sided query at position k leaves both totals as they were. */
  lemma {:induction false} OneSidedQueryAddsNoTime(qs: seq<string>, k: nat, q: string,
                                                   b: map<string, seq<real>>, r: map<string, seq<real>>)
    requires WellFormed(b, r)
    requires k <= |qs|
    requires !Comparable(q, b, r)
    ensures BaselineTotal(qs[..k] + [q] + qs[k..], b, r) == BaselineTotal(qs, b, r)
    ensures RptTotal(qs[..k] + [q] + qs[k..], b, r) == RptTotal(qs, b, r)
    decreases |qs|
  {
    var qs' := qs[..k] + [q] + qs[k..];
    if k == |qs| {
      assert qs'[..|qs'| - 1] == qs;
    } else {
      var n := |qs|;
      assert qs'[|qs'| - 1] == qs[n - 1];
      assert qs'[..|qs'| - 1] == qs[..n - 1][..k] + [q] + qs[..n - 1][k..];
      OneSidedQueryAddsNoTime(qs[..n - 1], k, q, b, r);
    }
  }

  /** Inserting a one-sided query at position k adds no win and no loss, and one MISSING line. */
  lemma {:induction false} OneSidedQueryAddsNoWin(qs: seq<string>, k: nat, q: string,
                                                  b: map<string, seq<real>>, r: map<string, seq<real>>)
    requires WellFormed(b, r)
    requires k <= |qs|
    requires !Comparable(q, b, r)
    ensures Wins(qs[..k] + [q] + qs[k..], b, r) == Wins(qs, b, r)
    ensures Losses(qs[..k] + [q] + qs[k..], b, r) == Losses(qs, b, r)
    ensures MissingCount(qs[..k] + [q] + qs[k..], b, r) == MissingCount(qs, b, r) + 1
    decreases |qs|
  {
    var qs' := qs[..k] + [q] + qs[k..];
    if k == |qs| {
      assert qs'[..|qs'| - 1] == qs;
    } else {
      var n := |qs|;
      assert qs'[|qs'| - 1] == qs[n - 1];
      assert qs'[..|qs'| - 1] == qs[..n - 1][..k] + [q] + qs[..n - 1][k..];
      OneSidedQueryAddsNoWin(qs[..n - 1], k, q, b, r);
    }
  }

  /**
   * Putting a query that only one side has anywhere into the walk changes no
   * total and no win or loss count: it only adds one MISSING line (and one tie).
   */
  lemma OneSidedQueryAddsNothing(qs: seq<string>, k: nat, q: string,
                                 b: map<string, seq<real>>, r: map<string, seq<real>>)
    requires WellFormed(b, r)
    requires k <= |qs|
    requires !Comparable(q, b, r)
    ensures var qs' := qs[..k] + [q] + qs[k..];
      && BaselineTotal(qs', b, r) == BaselineTotal(qs, b, r)
      && RptTotal(qs', b, r) == RptTotal(qs, b, r)
      && Wins(qs', b, r) == Wins(qs, b, r)
      && Losses(qs', b, r) == Losses(qs, b, r)
      && MissingCount(qs', b, r) == MissingCount(qs, b, r) + 1
  {
    OneSidedQueryAddsNoTime(qs, k, q, b, r);
    OneSidedQueryAddsNoWin(qs, k, q, b, r);
  }

  /**
   * The overall speedup is a ratio of sums, not a mean of ratios: with baseline
   * means 1 and 100 and RPT means 2 and 50, it is 101/52 while the per-query
   * speedups 0.5 and 2 average 1.25.
   */
  lemma OverallSpeedupIsNotMeanOfSpeedups()
    ensures var b := map["a" := [1.0], "b" := [100.0]];
            var r := map["a" := [2.0], "b" := [50.0]];
            var qs := SortedSet(b.Keys + r.Keys);
            && qs == ["a", "b"]
            && Speedup(BaselineTotal(qs, b, r), RptTotal(qs, b, r)) == 101.0 / 52.0
            && LineFor("a", b, r).speedup == 0.5
            && LineFor("b", b, r).speedup == 2.0
            && (LineFor("a", b, r).speedup + LineFor("b", b, r).speedup) / 2.0 != 101.0 / 52.0
  {
    var b := map["a" := [1.0], "b" := [100.0]];
    var r := map["a" := [2.0], "b" := [50.0]];
    SortedPair("a", "b");
    assert b.Keys + r.Keys == {"a", "b"};
    var qs := ["a", "b"];
    assert qs[..1] == ["a"];
    assert Mean([1.0]) == 1.0 && Mean([100.0]) == 100.0;
    assert Mean([2.0]) == 2.0 && Mean([50.0]) == 50.0;
    assert BaselineTotal(qs, b, r) == 101.0;
    assert RptTotal(qs, b, r) == 52.0;
  }

  /** `sorted({x, y})` for x below y. */
  lemma SortedPair(x: string, y: string)
    requires Below(x, y)
    ensures SortedSet({x, y}) == [x, y]
  {
    BelowIrreflexive(x);
    BelowAsymmetric(x, y);
    var s := SortedSet({x, y});
    SortedSetSize({x, y});
    assert |{x, y}| == 2;
    assert s[0] in {x, y} && s[1] in {x, y};
  }

  /**
   * Two queries, q1 with baseline [0.10, 0.12] and RPT [0.05, 0.05], q2 with 1.0 on
   * both sides: q1's speedup is 2.2 and improvement 600/11 % (+54.5 %), q2's are 1
   * and 0, and the weighted overall speedup is 1.11 / 1.05. The query list is
   * the one `Analyze` walks, `sorted(set(baseline) | set(rpt))`.
   */
  lemma TwoQueryScenario()
    ensures var b := map["q1" := [0.10, 0.12], "q2" := [1.0]];
            var r := map["q1" := [0.05, 0.05], "q2" := [1.0]];
            var qs := ["q1", "q2"];
            && SortedSet(b.Keys + r.Keys) == qs
            && LineFor("q1", b, r).speedup == 2.2
            && LineFor("q1", b, r).improvement == 600.0 / 11.0
            && LineFor("q2", b, r).speedup == 1.0
            && LineFor("q2", b, r).improvement == 0.0
            && Speedup(BaselineTotal(qs, b, r), RptTotal(qs, b, r)) == 1.11 / 1.05
            && Wins(qs, b, r) == 1 && Losses(qs, b, r) == 0
  {
    var b := map["q1" := [0.10, 0.12], "q2" := [1.0]];
    var r := map["q1" := [0.05, 0.05], "q2" := [1.0]];
    var qs := ["q1", "q2"];
    assert [0.10, 0.12][..1] == [0.10];
    assert [0.05, 0.05][..1] == [0.05];
    assert [0.10][..0] == [] && [0.05][..0] == [] && [1.0][..0] == [];
    assert Sum([0.10, 0.12]) == 0.22;
    assert Sum([0.05, 0.05]) == 0.10;
    assert Mean([0.10, 0.12]) == 0.11;
    assert Mean([0.05, 0.05]) == 0.05;
    assert Mean([1.0]) == 1.0;
    assert qs[..1] == ["q1"];
    assert BaselineTotal(qs, b, r) == 1.11;
    assert RptTotal(qs, b, r) == 1.05;
    assert b.Keys + r.Keys == {"q1", "q2"};
    SortedPair("q1", "q2");
  }
}
