/**
 * runner/measure_join_sizes.py: for each query, a list of COUNT(*) probes
 * (filtered tables and partial joins) run one after the other, one CSV row
 * per probe with its 1-based step number and the count, or −1 when the probe
 * gave no count.
 */
module MeasureJoinSizes {
  import opened Wrappers
  import opened Text
  import opened Process
  import opened Catalog

  /**
   * The probe names of `QUERIES[q]["joins"]`, in declaration order. The SQL of
   * each probe is not modelled: a probe's result comes from the Probes oracle.
   */
  const JoinSteps: Catalog<seq<string>> := [
    ("q1.1", ["date_filtered", "lineorder_filtered", "join1"]),
    ("q2.1", ["date_all", "part_filtered", "supplier_filtered", "lineorder_all",
              "join_date", "join_date_part", "join_final"]),
    ("q3.1", ["customer_filtered", "supplier_filtered", "date_filtered", "lineorder_all",
              "join_customer", "join_supplier", "join_final"]),
    ("q4.1", ["customer_filtered", "supplier_filtered", "part_filtered", "date_all",
              "lineorder_all", "join_customer", "join_supplier", "join_part", "join_final"])
  ]

  /**
   * `run_count_query`: the first integer in the stripped standard output of a
   * zero exit; None for a non-zero exit, for output without a digit, and for
   * every exception (the 60-second timeout included).
   */
  function RunCountQuery(o: Outcome): (r: Option<nat>)
    ensures r.Some? ==> o.Exited? && o.code == 0
  {
    match o
    case Exited(code, out, _) => if code != 0 then None else FirstDigitRun(Strip(out))
    case _ => None
  }

  /**
   * After a zero exit the count is the first integer of the output, stripped or
   * not: None exactly when the output holds no digit.
   */
  lemma RunCountQueryReadsFirstInteger(o: Outcome)
    requires o.Exited? && o.code == 0
    ensures RunCountQuery(o) == FirstDigitRun(o.stdout)
    ensures RunCountQuery(o).None? <==> !HasDigit(o.stdout)
  {
    StripKeepsFirstDigitRun(o.stdout);
    FirstDigitRunFindsAnyDigit(o.stdout);
  }

  /** A CSV row: mode, query, step, step_name, row_count. */
  datatype JoinSizeRow = JoinSizeRow(mode: string, query: string, step: nat, stepName: string, rowCount: int)

  /** What each probe gives, by (position of the query in the run list, step number). */
  type Probes = (nat, nat) -> Outcome

  /** The row_count column: the count, or −1 when there is none. */
  function CountOrSentinel(count: Option<nat>): (n: int)
    ensures n >= -1
    ensures n == -1 <==> count.None?
    ensures count.Some? ==> n == count.value
  {
    if count.Some? then count.value else -1
  }

  /**
   * What a probe's row records: its query, step number and name, and a count
   * that is −1 exactly when the probe gave no count.
   */
  predicate RecordsProbe(row: JoinSizeRow, mode: string, q: string, step: nat, name: string, probe: Outcome)
  {
    row.mode == mode && row.query == q && row.step == step && row.stepName == name
    && row.rowCount >= -1 && (row.rowCount == -1 <==> RunCountQuery(probe).None?)
  }

  /** The row one probe writes. */
  function StepRow(mode: string, q: string, step: nat, name: string, probe: Outcome): JoinSizeRow
  {
    JoinSizeRow(mode, q, step, name, CountOrSentinel(RunCountQuery(probe)))
  }

  /** The rows of one known query, one per probe in declaration order. */
  function StepRows(mode: string, q: string, pos: nat, steps: seq<string>, probes: Probes): seq<JoinSizeRow>
  {
    if steps == [] then []
    else
      var n := |steps|;
      StepRows(mode, q, pos, steps[..n - 1], probes) + [StepRow(mode, q, n, steps[n - 1], probes(pos, n))]
  }

  /** Row k of a query's rows is the row of its probe k + 1. */
  lemma {:induction false} StepRowsElements(mode: string, q: string, pos: nat, steps: seq<string>, probes: Probes)
    ensures |StepRows(mode, q, pos, steps, probes)| == |steps|
    ensures forall k :: 0 <= k < |steps| ==>
              StepRows(mode, q, pos, steps, probes)[k] == StepRow(mode, q, k + 1, steps[k], probes(pos, k + 1))
  {
    if steps != [] {
      var n := |steps|;
      StepRowsElements(mode, q, pos, steps[..n - 1], probes);
      assert forall k :: 0 <= k < n - 1 ==> steps[..n - 1][k] == steps[k];
    }
  }

  /**
   * One row per probe, numbered from 1 in declaration order, a failed probe
   * recorded as −1 and the later probes still run.
   */
  lemma {:induction false} StepRowsShape(mode: string, q: string, pos: nat, steps: seq<string>, probes: Probes)
    ensures |StepRows(mode, q, pos, steps, probes)| == |steps|
    ensures forall k {:trigger StepRows(mode, q, pos, steps, probes)[k]} :: 0 <= k < |steps| ==>
              RecordsProbe(StepRows(mode, q, pos, steps, probes)[k], mode, q, k + 1, steps[k], probes(pos, k + 1))
  {
    if steps != [] {
      var n := |steps|;
      StepRowsShape(mode, q, pos, steps[..n - 1], probes);
      var prev := StepRows(mode, q, pos, steps[..n - 1], probes);
      assert StepRows(mode, q, pos, steps, probes) == prev + [StepRow(mode, q, n, steps[n - 1], probes(pos, n))];
    }
  }

  /** The rows written for the first n requested names; unknown names write nothing. */
  function JoinRows(mode: string, c: Catalog<seq<string>>, names: seq<string>, probes: Probes, n: nat): seq<JoinSizeRow>
    requires n <= |names|
  {
    if n == 0 then []
    else
      JoinRows(mode, c, names, probes, n - 1)
      + (match Lookup(c, names[n - 1])
         case Some(steps) => StepRows(mode, names[n - 1], n - 1, steps, probes)
         case None => [])
  }

  /** How many probes the known names among the first n declare in all. */
  function ProbeCount(c: Catalog<seq<string>>, names: seq<string>, n: nat): nat
    requires n <= |names|
  {
    if n == 0 then 0
    else ProbeCount(c, names, n - 1) + (match Lookup(c, names[n - 1]) case Some(steps) => |steps| case None => 0)
  }

  /** A row that belongs to a declared probe of a catalog query. */
  predicate DeclaredProbeRow(row: JoinSizeRow, mode: string, c: Catalog<seq<string>>)
  {
    row.mode == mode && row.rowCount >= -1
    && Lookup(c, row.query).Some? && 1 <= row.step <= |Lookup(c, row.query).value|
    && row.stepName == Lookup(c, row.query).value[row.step - 1]
  }

  /** The row of step k + 1 of a catalog query is a declared probe's row. */
  lemma RecordedProbeIsDeclared(row: JoinSizeRow, mode: string, c: Catalog<seq<string>>, q: string,
                                steps: seq<string>, k: nat, probe: Outcome)
    requires Lookup(c, q) == Some(steps) && k < |steps|
    requires RecordsProbe(row, mode, q, k + 1, steps[k], probe)
    ensures DeclaredProbeRow(row, mode, c)
  {
  }

  /**
   * The file holds one row per declared probe of every known requested name and
   * nothing for unknown names; every row names a catalog query, carries a step
   * name declared for it, and a count that is −1 or non-negative.
   */
  lemma {:induction false} JoinRowsShape(mode: string, c: Catalog<seq<string>>, names: seq<string>, probes: Probes, n: nat)
    requires n <= |names|
    ensures |JoinRows(mode, c, names, probes, n)| == ProbeCount(c, names, n)
    ensures forall i :: 0 <= i < |JoinRows(mode, c, names, probes, n)| ==>
              DeclaredProbeRow(JoinRows(mode, c, names, probes, n)[i], mode, c)
  {
    if n > 0 {
      JoinRowsShape(mode, c, names, probes, n - 1);
      var prev := JoinRows(mode, c, names, probes, n - 1);
      var q := names[n - 1];
      var info := Lookup(c, q);
      if info.Some? {
        var steps := info.value;
        var block := StepRows(mode, q, n - 1, steps, probes);
        StepRowsShape(mode, q, n - 1, steps, probes);
        var rows := prev + block;
        assert JoinRows(mode, c, names, probes, n) == rows;
        forall i | 0 <= i < |rows| ensures DeclaredProbeRow(rows[i], mode, c) {
          if i >= |prev| {
            var k := i - |prev|;
            assert rows[i] == block[k];
            RecordedProbeIsDeclared(block[k], mode, c, q, steps, k, probes(n - 1, k + 1));
          } else {
            assert rows[i] == prev[i];
          }
        }
      } else {
        assert JoinRows(mode, c, names, probes, n) == prev;
      }
    }
  }

  /** Every probe of q4.1 failing still gives its nine rows, all −1, steps 1..9. */
  lemma AllProbesFailing(mode: string)
    ensures var rows := JoinRows(mode, JoinSteps, ["q4.1"], (pos, step) => Timeout, 1);
            |rows| == 9
            && (forall k :: 0 <= k < 9 ==> rows[k].step == k + 1 && rows[k].rowCount == -1)
            && rows[8].stepName == "join_final"
  {
    assert Lookup(JoinSteps, "q4.1").Some?;
    StepRowsShape(mode, "q4.1", 0, Lookup(JoinSteps, "q4.1").value, (pos, step) => Timeout);
  }

  /** The probes of one known query (the enumerate loop of `main`). */
  method ProbeSteps(mode: string, q: string, pos: nat, steps: seq<string>, probes: Probes)
    returns (block: seq<JoinSizeRow>)
    ensures block == StepRows(mode, q, pos, steps, probes)
  {
    block := [];
    var stepNum := 1;
    while stepNum <= |steps|
      invariant 1 <= stepNum <= |steps| + 1
      invariant |block| == stepNum - 1
      invariant forall k :: 0 <= k < stepNum - 1 ==> block[k] == StepRow(mode, q, k + 1, steps[k], probes(pos, k + 1))
    {
      var rowCount := RunCountQuery(probes(pos, stepNum));
      var row;
      if rowCount.Some? {
        row := JoinSizeRow(mode, q, stepNum, steps[stepNum - 1], rowCount.value);
      } else {
        row := JoinSizeRow(mode, q, stepNum, steps[stepNum - 1], -1);
      }
      block := block + [row];
      stepNum := stepNum + 1;
    }
    StepRowsElements(mode, q, pos, steps, probes);
  }

  /** The loop of `main` over the requested names, rows in the order written after the header. */
  method MeasureAll(mode: string, c: Catalog<seq<string>>, requested: Option<seq<string>>, probes: Probes)
    returns (rows: seq<JoinSizeRow>)
    ensures var names := QueriesToRun(c, requested);
            rows == JoinRows(mode, c, names, probes, |names|)
  {
    var names := QueriesToRun(c, requested);
    rows := [];
    var i := 0;
    while i < |names|
      invariant 0 <= i <= |names|
      invariant rows == JoinRows(mode, c, names, probes, i)
    {
      var info := Lookup(c, names[i]);
      if info.None? {
        assert JoinRows(mode, c, names, probes, i + 1) == rows;
        i := i + 1;
        continue;
      }
      var block := ProbeSteps(mode, names[i], i, info.value, probes);
      assert JoinRows(mode, c, names, probes, i + 1) == rows + block;
      rows := rows + block;
      i := i + 1;
    }
  }
}
