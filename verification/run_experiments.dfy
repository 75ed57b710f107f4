/**
 * The timing driver: every catalog query is run once as an unrecorded
 * warm-up and then `reps` times, each timed run appended to the results CSV
 * as one row. The first failing invocation aborts the whole run.
 *
 * Each invocation of the DuckDB CLI is an oracle value: its exit code and the
 * two monotonic clock readings around it, or the OSError `subprocess.run`
 * raised when the binary could not be started, indexed by (position of the
 * query in the catalog, repetition), where repetition 0 is the warm-up.
 *
 * As written, `main` stops at `args.duckdb-bin` before it opens the file (see
 * BinPathAsWritten below); what follows is the run once that line reads
 * `args.duckdb_bin`.
 */
module RunExperiments {
  import opened Wrappers
  import opened Text
  import opened Catalog

  // ---------------------------------------------------------------------------
  // run_query

  /**
   * One call of the CLI: its exit code and the clock before and after it, or
   * the message of the FileNotFoundError/PermissionError raised when the
   * binary could not be started (`run_query` does not catch it).
   */
  datatype Call = Call(exitCode: int, start: real, end: real) | SpawnFailed(message: string)

  /** `time.perf_counter` is monotonic: the second reading is never the earlier one. */
  type Invocation = c: Call | c.SpawnFailed? || c.start <= c.end witness Call(0, 0.0, 0.0)

  /** The child was started and exited with 0. */
  predicate Succeeded(inv: Invocation)
  {
    inv.Call? && inv.exitCode == 0
  }

  function CommandLine(bin: string, db: string, sql: string): seq<string>
  {
    [bin, db, "-c", sql]
  }

  /**
   * `run_query`: a failed spawn propagates its own exception; a non-zero exit
   * raises "Command failed: <the command line>"; otherwise the elapsed seconds.
   */
  function RunQuery(bin: string, db: string, sql: string, inv: Invocation): (r: Result<real>)
    ensures r.Ok? <==> Succeeded(inv)
    ensures r.Ok? ==> r.value == inv.end - inv.start && r.value >= 0.0
    ensures inv.SpawnFailed? ==> r == Err(inv.message)
    ensures inv.Call? && r.Err? ==> StartsWith(r.error, "Command failed: ")
  {
    if inv.SpawnFailed? then Err(inv.message)
    else if inv.exitCode != 0 then Err("Command failed: " + Join(CommandLine(bin, db, sql), ' '))
    else Ok(inv.end - inv.start)
  }

  // ---------------------------------------------------------------------------
  // main: the rows a run appends

  /** The command-line settings the loop uses. */
  datatype Config = Config(mode: string, bin: string, db: string, reps: int)

  /** A line of the results CSV: the header or one timed repetition. */
  datatype Line = Header | Timing(mode: string, query: string, rep: nat, seconds: real)

  /** The invocations, by (position of the query, repetition); repetition 0 is the warm-up. */
  type Calls = (nat, nat) -> Invocation

  function RepCount(reps: int): nat { if reps > 0 then reps else 0 }

  /** What a run has appended so far, and the message of the exception that ended it, if any. */
  datatype Progress = Progress(rows: seq<Line>, failure: Option<string>)

  /** Repetitions 1..n of one query, stopping at the first failure. */
  function RepRows(cfg: Config, q: string, sql: string, pos: nat, n: nat, calls: Calls): Progress
  {
    if n == 0 then Progress([], None)
    else
      var p := RepRows(cfg, q, sql, pos, n - 1, calls);
      if p.failure.Some? then p
      else
        match RunQuery(cfg.bin, cfg.db, sql, calls(pos, n))
        case Err(e) => Progress(p.rows, Some(e))
        case Ok(t) => Progress(p.rows + [Timing(cfg.mode, q, n, t)], None)
  }

  /** One query: the warm-up, whose time is dropped, then its repetitions. */
  function QueryRun(cfg: Config, c: Catalog<string>, pos: nat, calls: Calls): Progress
    requires pos < |c|
  {
    match RunQuery(cfg.bin, cfg.db, c[pos].1, calls(pos, 0))
    case Err(e) => Progress([], Some(e))
    case Ok(_) => RepRows(cfg, c[pos].0, c[pos].1, pos, RepCount(cfg.reps), calls)
  }

  /** The first n queries of the catalog, in catalog order, stopping at the first failure. */
  function Experiment(cfg: Config, c: Catalog<string>, calls: Calls, n: nat): Progress
    requires n <= |c|
  {
    if n == 0 then Progress([], None)
    else
      var p := Experiment(cfg, c, calls, n - 1);
      if p.failure.Some? then p
      else
        var r := QueryRun(cfg, c, n - 1, calls);
        Progress(p.rows + r.rows, r.failure)
  }

  // ---------------------------------------------------------------------------
  // Reference: the rows of a run in which nothing fails

  /** The time a started call took (a failed spawn is never timed). */
  function Elapsed(inv: Invocation): real { if inv.Call? then inv.end - inv.start else 0.0 }

  /** Repetitions 1..n of one query, each timed by its own invocation. */
  function PlannedReps(mode: string, q: string, pos: nat, n: nat, calls: Calls): seq<Line>
  {
    if n == 0 then [] else PlannedReps(mode, q, pos, n - 1, calls) + [Timing(mode, q, n, Elapsed(calls(pos, n)))]
  }

  /** Every query of the first n, reps rows each. */
  function Planned(cfg: Config, c: Catalog<string>, calls: Calls, n: nat): seq<Line>
    requires n <= |c|
  {
    if n == 0 then []
    else Planned(cfg, c, calls, n - 1) + PlannedReps(cfg.mode, c[n - 1].0, n - 1, RepCount(cfg.reps), calls)
  }

  /** Invocations 1..n of a query start and exit with 0. */
  predicate RepsSucceed(calls: Calls, pos: nat, n: nat)
  {
    forall k :: 1 <= k <= n ==> Succeeded(calls(pos, k))
  }

  /** Every invocation of the first n queries, warm-ups included, starts and exits with 0. */
  predicate AllSucceed(cfg: Config, calls: Calls, n: nat)
  {
    forall pos :: 0 <= pos < n ==> Succeeded(calls(pos, 0)) && RepsSucceed(calls, pos, RepCount(cfg.reps))
  }

  /** Row k of a query's planned rows is repetition k + 1, timed by invocation k + 1. */
  lemma {:induction false} PlannedRepsElements(mode: string, q: string, pos: nat, n: nat, calls: Calls)
    ensures |PlannedReps(mode, q, pos, n, calls)| == n
    ensures forall k :: 0 <= k < n ==>
              PlannedReps(mode, q, pos, n, calls)[k] == Timing(mode, q, k + 1, Elapsed(calls(pos, k + 1)))
  {
    if n > 0 {
      PlannedRepsElements(mode, q, pos, n - 1, calls);
    }
  }

  lemma AppendAssociates<T>(a: seq<T>, b: seq<T>, d: seq<T>)
    ensures (a + b) + d == a + (b + d)
  {
  }

  lemma PrefixOfLonger<T>(a: seq<T>, b: seq<T>, tail: seq<T>)
    requires a <= b
    ensures a <= b + tail
  {
    assert (b + tail)[..|a|] == b[..|a|];
  }

  /**
   * The repetitions written are a prefix of the planned ones; they are all
   * of them exactly when every invocation succeeds.
   */
  lemma {:induction false} RepRowsArePlannedPrefix(cfg: Config, q: string, sql: string, pos: nat, n: nat, calls: Calls)
    ensures RepRows(cfg, q, sql, pos, n, calls).rows <= PlannedReps(cfg.mode, q, pos, n, calls)
    ensures RepRows(cfg, q, sql, pos, n, calls).failure.None? <==> RepsSucceed(calls, pos, n)
    ensures RepsSucceed(calls, pos, n) ==> RepRows(cfg, q, sql, pos, n, calls).rows == PlannedReps(cfg.mode, q, pos, n, calls)
  {
    if n > 0 {
      RepRowsArePlannedPrefix(cfg, q, sql, pos, n - 1, calls);
      var p := RepRows(cfg, q, sql, pos, n - 1, calls);
      var last := [Timing(cfg.mode, q, n, Elapsed(calls(pos, n)))];
      PrefixOfLonger(p.rows, PlannedReps(cfg.mode, q, pos, n - 1, calls), last);
      if RepsSucceed(calls, pos, n) {
        assert RepsSucceed(calls, pos, n - 1);
      } else if RepsSucceed(calls, pos, n - 1) {
        assert !Succeeded(calls(pos, n));
      }
    }
  }

  /**
   * What a run appends is a prefix of the planned rows: reps rows per query in
   * catalog order, up to the first failure. It ends without an exception
   * exactly when every invocation, warm-ups included, succeeds, and then it
   * has written every planned row.
   */
  lemma {:induction false} ExperimentIsPlannedPrefix(cfg: Config, c: Catalog<string>, calls: Calls, n: nat)
    requires n <= |c|
    ensures Experiment(cfg, c, calls, n).rows <= Planned(cfg, c, calls, n)
    ensures Experiment(cfg, c, calls, n).failure.None? <==> AllSucceed(cfg, calls, n)
    ensures AllSucceed(cfg, calls, n) ==> Experiment(cfg, c, calls, n).rows == Planned(cfg, c, calls, n)
  {
    if n > 0 {
      ExperimentIsPlannedPrefix(cfg, c, calls, n - 1);
      var p := Experiment(cfg, c, calls, n - 1);
      var pos := n - 1;
      var block := PlannedReps(cfg.mode, c[pos].0, pos, RepCount(cfg.reps), calls);
      PrefixOfLonger(p.rows, Planned(cfg, c, calls, n - 1), block);
      if p.failure.None? {
        RepRowsArePlannedPrefix(cfg, c[pos].0, c[pos].1, pos, RepCount(cfg.reps), calls);
        var r := QueryRun(cfg, c, pos, calls);
        assert r.rows <= block;
        assert p.rows + r.rows <= p.rows + block;
        assert AllSucceed(cfg, calls, n) <==>
               AllSucceed(cfg, calls, n - 1) && Succeeded(calls(pos, 0)) && RepsSucceed(calls, pos, RepCount(cfg.reps));
      } else {
        assert !AllSucceed(cfg, calls, n - 1);
      }
    }
  }

  /** Once a repetition has failed, no later repetition runs. */
  lemma {:induction false} RepAbortIsFinal(cfg: Config, q: string, sql: string, pos: nat, n: nat, m: nat, calls: Calls)
    requires n <= m
    requires RepRows(cfg, q, sql, pos, n, calls).failure.Some?
    ensures RepRows(cfg, q, sql, pos, m, calls) == RepRows(cfg, q, sql, pos, n, calls)
    decreases m
  {
    if m > n {
      RepAbortIsFinal(cfg, q, sql, pos, n, m - 1, calls);
    }
  }

  /** Once an invocation has failed, no later query runs: the rest of the catalog adds nothing. */
  lemma {:induction false} AbortIsFinal(cfg: Config, c: Catalog<string>, calls: Calls, n: nat, m: nat)
    requires n <= m <= |c|
    requires Experiment(cfg, c, calls, n).failure.Some?
    ensures Experiment(cfg, c, calls, m) == Experiment(cfg, c, calls, n)
    decreases m
  {
    if m > n {
      AbortIsFinal(cfg, c, calls, n, m - 1);
    }
  }

  /** Reaching query n, the run appends its rows and takes on its outcome. */
  lemma ExperimentStep(cfg: Config, c: Catalog<string>, calls: Calls, n: nat)
    requires n < |c|
    requires Experiment(cfg, c, calls, n).failure.None?
    ensures Experiment(cfg, c, calls, n + 1)
         == Progress(Experiment(cfg, c, calls, n).rows + QueryRun(cfg, c, n, calls).rows, QueryRun(cfg, c, n, calls).failure)
  {
  }

  /** The rows a query contributes when it is reached and nothing fails: reps rows numbered 1..reps. */
  lemma QueryRowsNumbered(cfg: Config, c: Catalog<string>, pos: nat, calls: Calls)
    requires pos < |c|
    requires Succeeded(calls(pos, 0)) && RepsSucceed(calls, pos, RepCount(cfg.reps))
    ensures |QueryRun(cfg, c, pos, calls).rows| == RepCount(cfg.reps)
    ensures forall k :: 0 <= k < RepCount(cfg.reps) ==>
              QueryRun(cfg, c, pos, calls).rows[k] == Timing(cfg.mode, c[pos].0, k + 1, Elapsed(calls(pos, k + 1)))
  {
    RepRowsArePlannedPrefix(cfg, c[pos].0, c[pos].1, pos, RepCount(cfg.reps), calls);
    PlannedRepsElements(cfg.mode, c[pos].0, pos, RepCount(cfg.reps), calls);
  }

  /**
   * The first failing repetition k writes no row of its own: the query's
   * rows are repetitions 1..k-1, and its exception is the failure, whatever
   * the repetitions after k would have done.
   */
  lemma RepFailureCutsRows(cfg: Config, q: string, sql: string, pos: nat, n: nat, k: nat, calls: Calls)
    requires 1 <= k <= n
    requires RepsSucceed(calls, pos, k - 1) && !Succeeded(calls(pos, k))
    ensures RepRows(cfg, q, sql, pos, n, calls)
         == Progress(PlannedReps(cfg.mode, q, pos, k - 1, calls), Some(RunQuery(cfg.bin, cfg.db, sql, calls(pos, k)).error))
  {
    RepRowsArePlannedPrefix(cfg, q, sql, pos, k - 1, calls);
    assert RepRows(cfg, q, sql, pos, k, calls)
        == Progress(PlannedReps(cfg.mode, q, pos, k - 1, calls), Some(RunQuery(cfg.bin, cfg.db, sql, calls(pos, k)).error));
    RepAbortIsFinal(cfg, q, sql, pos, k, n, calls);
  }

  /** A failing warm-up writes no row for its query, and its exception is the failure. */
  lemma WarmUpFailureWritesNothing(cfg: Config, c: Catalog<string>, pos: nat, calls: Calls)
    requires pos < |c|
    requires !Succeeded(calls(pos, 0))
    ensures QueryRun(cfg, c, pos, calls) == Progress([], Some(RunQuery(cfg.bin, cfg.db, c[pos].1, calls(pos, 0)).error))
  {
  }

  /**
   * Where a failure cuts the run: when every invocation of the queries before
   * pos succeeds and one of query pos fails, the file receives every planned
   * row of the earlier queries, then what query pos wrote before its failure,
   * and the run ends with that query's exception.
   */
  lemma FirstFailureCutsRun(cfg: Config, c: Catalog<string>, calls: Calls, pos: nat)
    requires pos < |c|
    requires AllSucceed(cfg, calls, pos)
    requires !(Succeeded(calls(pos, 0)) && RepsSucceed(calls, pos, RepCount(cfg.reps)))
    ensures QueryRun(cfg, c, pos, calls).failure.Some?
    ensures Experiment(cfg, c, calls, |c|)
         == Progress(Planned(cfg, c, calls, pos) + QueryRun(cfg, c, pos, calls).rows, QueryRun(cfg, c, pos, calls).failure)
  {
    ExperimentIsPlannedPrefix(cfg, c, calls, pos);
    ExperimentStep(cfg, c, calls, pos);
    if Succeeded(calls(pos, 0)) {
      RepRowsArePlannedPrefix(cfg, c[pos].0, c[pos].1, pos, RepCount(cfg.reps), calls);
    }
    AbortIsFinal(cfg, c, calls, pos + 1, |c|);
  }

  /** Two calls that end the same way: the same exit code, or the same failed spawn. */
  predicate SameOutcome(a: Invocation, b: Invocation)
  {
    if a.Call? then b.Call? && a.exitCode == b.exitCode else a == b
  }

  /** Two oracles that agree except on the timing of warm-ups. */
  ghost predicate SameButWarmUpTimes(calls: Calls, other: Calls)
  {
    forall pos: nat, rep: nat ::
      (rep > 0 ==> other(pos, rep) == calls(pos, rep))
      && SameOutcome(other(pos, rep), calls(pos, rep))
  }

  lemma {:induction false} RepRowsIgnoreWarmUp(cfg: Config, q: string, sql: string, pos: nat, n: nat, calls: Calls, other: Calls)
    requires SameButWarmUpTimes(calls, other)
    ensures RepRows(cfg, q, sql, pos, n, other) == RepRows(cfg, q, sql, pos, n, calls)
  {
    if n > 0 {
      RepRowsIgnoreWarmUp(cfg, q, sql, pos, n - 1, calls, other);
      assert other(pos, n) == calls(pos, n);
    }
  }

  /**
   * The warm-up is discarded: how long it took never reaches the file. Only
   * whether it failed matters.
   */
  lemma {:induction false} WarmUpTimeIsDiscarded(cfg: Config, c: Catalog<string>, calls: Calls, other: Calls, n: nat)
    requires n <= |c|
    requires SameButWarmUpTimes(calls, other)
    ensures Experiment(cfg, c, other, n) == Experiment(cfg, c, calls, n)
  {
    if n > 0 {
      WarmUpTimeIsDiscarded(cfg, c, calls, other, n - 1);
      var pos := n - 1;
      RepRowsIgnoreWarmUp(cfg, c[pos].0, c[pos].1, pos, RepCount(cfg.reps), calls, other);
      assert SameOutcome(other(pos, 0), calls(pos, 0));
      assert QueryRun(cfg, c, pos, other) == QueryRun(cfg, c, pos, calls);
    }
  }

  // ---------------------------------------------------------------------------
  // The results file and the loop of main

  /** The CSV file, opened for append: what it already holds is never rewritten. */
  class ResultFile {
    var lines: seq<Line>

    constructor (existing: seq<Line>)
      ensures lines == existing
    {
      lines := existing;
    }

    /** `writer.writerow`: one more line at the end. */
    method Append(line: Line)
      modifies this
      ensures lines == old(lines) + [line]
    {
      lines := lines + [line];
    }
  }

  /** The header is written only into an empty file. */
  function HeaderFor(existing: seq<Line>): seq<Line>
  {
    if existing == [] then [Header] else []
  }

  /** The repetitions of one query (the inner loop); the warm-up runs first and is not written. */
  method TimeQuery(file: ResultFile, cfg: Config, c: Catalog<string>, pos: nat, calls: Calls) returns (failure: Option<string>)
    requires pos < |c|
    modifies file
    ensures file.lines == old(file.lines) + QueryRun(cfg, c, pos, calls).rows
    ensures failure == QueryRun(cfg, c, pos, calls).failure
  {
    var (q, sql) := c[pos];
    var warmUp := RunQuery(cfg.bin, cfg.db, sql, calls(pos, 0));
    if warmUp.Err? {
      return Some(warmUp.error);
    }
    ghost var before := file.lines;
    var rep := 1;
    while rep <= cfg.reps
      invariant 1 <= rep <= RepCount(cfg.reps) + 1
      invariant RepRows(cfg, q, sql, pos, rep - 1, calls).failure.None?
      invariant file.lines == before + RepRows(cfg, q, sql, pos, rep - 1, calls).rows
    {
      var t := RunQuery(cfg.bin, cfg.db, sql, calls(pos, rep));
      if t.Err? {
        RepAbortIsFinal(cfg, q, sql, pos, rep, RepCount(cfg.reps), calls);
        return Some(t.error);
      }
      file.Append(Timing(cfg.mode, q, rep, t.value));
      rep := rep + 1;
    }
    return None;
  }

  /** The loop of `main` over the catalog, in catalog order, up to the first failure. */
  method RunQueries(file: ResultFile, cfg: Config, c: Catalog<string>, calls: Calls) returns (failure: Option<string>)
    modifies file
    ensures file.lines == old(file.lines) + Experiment(cfg, c, calls, |c|).rows
    ensures failure == Experiment(cfg, c, calls, |c|).failure
  {
    ghost var start := file.lines;
    var i := 0;
    while i < |c|
      invariant 0 <= i <= |c|
      invariant Experiment(cfg, c, calls, i).failure.None?
      invariant file.lines == start + Experiment(cfg, c, calls, i).rows
    {
      failure := TimeQuery(file, cfg, c, i, calls);
      ExperimentStep(cfg, c, calls, i);
      AppendAssociates(start, Experiment(cfg, c, calls, i).rows, QueryRun(cfg, c, i, calls).rows);
      if failure.Some? {
        AbortIsFinal(cfg, c, calls, i + 1, |c|);
        return;
      }
      i := i + 1;
    }
    return None;
  }

  /**
   * `main` after the arguments are parsed, once the binary is read from
   * `args.duckdb_bin` (BinPath): the header if the file is empty, then the
   * run. The file ends up holding what it held, the header if it was empty,
   * and the rows of the run; the result is the message of the exception
   * that stopped it.
   */
  method RunAll(file: ResultFile, cfg: Config, c: Catalog<string>, calls: Calls) returns (failure: Option<string>)
    modifies file
    ensures file.lines == old(file.lines) + HeaderFor(old(file.lines)) + Experiment(cfg, c, calls, |c|).rows
    ensures failure == Experiment(cfg, c, calls, |c|).failure
  {
    if file.lines == [] {
      file.Append(Header);
    }
    failure := RunQueries(file, cfg, c, calls);
  }

  // ---------------------------------------------------------------------------
  // The `--duckdb-bin` attribute

  /** The long options `main` declares, without their leading `--`. */
  const OptionNames: seq<string> := ["mode", "duckdb-bin", "db", "reps", "out"]

  /** argparse's `dest` for a long option `--name`: the name with its dashes turned into underscores. */
  function Dest(name: string): (r: string)
    ensures |r| == |name|
    ensures forall k :: 0 <= k < |name| ==> r[k] == (if name[k] == '-' then '_' else name[k])
  {
    if name == [] then [] else [if name[0] == '-' then '_' else name[0]] + Dest(name[1..])
  }

  /** The parsed namespace: one attribute per declared option, and no other. */
  ghost predicate ParsedNamespace(ns: map<string, string>)
  {
    ns.Keys == set n | n in OptionNames :: Dest(n)
  }

  /** Attribute access on the namespace. */
  function Attribute(ns: map<string, string>, name: string): Result<string>
  {
    if name in ns then Ok(ns[name])
    else Err("AttributeError: 'Namespace' object has no attribute '" + name + "'")
  }

  /**
   * `args.duckdb-bin` as written: Python reads it as `args.duckdb - bin`. The
   * attribute lookup comes first; were it to succeed, subtracting the builtin
   * `bin` from a string would raise in turn.
   */
  function BinPathAsWritten(ns: map<string, string>): (r: Result<string>)
  {
    match Attribute(ns, "duckdb")
    case Err(e) => Err(e)
    case Ok(_) => Err("TypeError: unsupported operand type(s) for -: 'str' and 'builtin_function_or_method'")
  }

  /**
   * As written the script never reaches the loop: on the namespace argparse
   * builds, `args.duckdb` does not exist, so main raises before it opens the file.
   */
  lemma BinPathAsWrittenAlwaysFails(ns: map<string, string>)
    requires ParsedNamespace(ns)
    ensures BinPathAsWritten(ns) == Err("AttributeError: 'Namespace' object has no attribute 'duckdb'")
  {
    assert forall n :: n in OptionNames ==> |n| != |"duckdb"|;
    assert "duckdb" !in ns;
  }

  /** Dest is determined character by character. */
  lemma DestIs(name: string, attr: string)
    requires |attr| == |name|
    requires forall k :: 0 <= k < |name| ==> attr[k] == (if name[k] == '-' then '_' else name[k])
    ensures Dest(name) == attr
  {
  }

  /** `--duckdb-bin` is stored under `duckdb_bin`. */
  lemma DestOfDuckdbBin()
    ensures Dest("duckdb-bin") == "duckdb_bin"
  {
    DestIs("duckdb-bin", "duckdb_bin");
  }

  lemma DuckdbBinIsDeclared()
    ensures "duckdb_bin" in set n | n in OptionNames :: Dest(n)
  {
    DestOfDuckdbBin();
    assert "duckdb-bin" in OptionNames;
  }

  /** `args.duckdb_bin`: the path given to `--duckdb-bin`. */
  function BinPath(ns: map<string, string>): (r: Result<string>)
    requires ParsedNamespace(ns)
    ensures "duckdb_bin" in ns && r == Ok(ns["duckdb_bin"])
  {
    DuckdbBinIsDeclared();
    Attribute(ns, "duckdb_bin")
  }
}
