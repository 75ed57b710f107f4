/**
 * runner/measure_memory.py: peak resident memory of one query execution, taken
 * from `/usr/bin/time -v` output or, when that tool is missing, by sampling the
 * VmRSS line of `/proc/<pid>/status` while the child runs; and the loop that
 * writes one CSV row per repetition.
 */
module MeasureMemory {
  import opened Wrappers
  import opened Text
  import opened Process
  import opened Catalog

  // ---------------------------------------------------------------------------
  // parse_time_output

  const RssLabel := "Maximum resident set size"
  const RssLabelMisspelt := "Mmaximum resident set size"

  predicate IsRssLine(line: string)
  {
    Contains(line, RssLabel) || Contains(line, RssLabelMisspelt)
  }

  /** A line the scan stops at: it names the field and holds a number. */
  predicate IsRssReading(line: string)
  {
    IsRssLine(line) && FirstDigitRun(line).Some?
  }

  /** The scan of `parse_time_output` over the lines: the first integer of the first reading line. */
  function ScanForRss(lines: seq<string>): (kb: Option<nat>)
    ensures kb.None? <==> forall i :: 0 <= i < |lines| ==> !IsRssReading(lines[i])
  {
    if lines == [] then None
    else if IsRssReading(lines[0]) then FirstDigitRun(lines[0])
    else
      assert forall i :: 1 <= i < |lines| ==> lines[i] == lines[1..][i - 1];
      ScanForRss(lines[1..])
  }

  /** `parse_time_output(stderr)`: kilobytes, or None. */
  function ParseTimeOutput(stderr: string): Option<nat>
  {
    ScanForRss(Split(stderr, '\n'))
  }

  /**
   * The scan returns the first integer of the first line that names the field
   * and has a digit; earlier lines naming the field without a digit are passed over.
   */
  lemma {:induction false} ScanForRssFindsFirstReading(lines: seq<string>, k: nat)
    requires k < |lines| && IsRssReading(lines[k])
    requires forall i :: 0 <= i < k ==> !IsRssReading(lines[i])
    ensures ScanForRss(lines) == FirstDigitRun(lines[k])
  {
    if k > 0 {
      assert forall i :: 0 <= i < k - 1 ==> lines[1..][i] == lines[i + 1];
      ScanForRssFindsFirstReading(lines[1..], k - 1);
    }
  }

  /** A text without a line break is a single line. */
  lemma {:induction false} SplitWithoutSeparator(s: string, sep: char)
    requires sep !in s
    ensures Split(s, sep) == [s]
  {
    if s != [] {
      SplitWithoutSeparator(s[1..], sep);
    }
  }

  /**
   * The field is matched case-sensitively: output whose lines have no capital
   * M, such as one spelling the field "maximum resident set size", gives None.
   */
  lemma {:induction false} FieldMatchIsCaseSensitive(lines: seq<string>)
    requires forall i :: 0 <= i < |lines| ==> 'M' !in lines[i]
    ensures ScanForRss(lines) == None
  {
    forall i | 0 <= i < |lines| ensures !IsRssReading(lines[i]) {
      if Contains(lines[i], RssLabel) { ContainsHead(lines[i], RssLabel); }
      if Contains(lines[i], RssLabelMisspelt) { ContainsHead(lines[i], RssLabelMisspelt); }
    }
  }

  lemma LowerCaseFieldIsNotRead()
    ensures ScanForRss(["\tmaximum resident set size (kbytes): 2048"]) == None
  {
    FieldMatchIsCaseSensitive(["\tmaximum resident set size (kbytes): 2048"]);
  }

  // ---------------------------------------------------------------------------
  // The (bytes | None, status | None) pair

  datatype Measurement = Measurement(peakBytes: Option<nat>, status: Option<string>)

  function Failure(status: string): Measurement { Measurement(None, Some(status)) }

  function Success(bytes: nat): Measurement { Measurement(Some(bytes), None) }

  /** Every status the profiler reports begins with one of these. */
  predicate IsFailureStatus(status: string)
  {
    StartsWith(status, "error: ") || StartsWith(status, "exception: ")
    || status == "timeout" || status == "could not parse memory stats"
    || status == "could not measure memory"
  }

  /** Exactly one half of the pair is present, and a status is one of the failure statuses. */
  predicate WellFormedMeasurement(m: Measurement)
  {
    (m.peakBytes.None? <==> m.status.Some?)
    && (m.status.Some? ==> IsFailureStatus(m.status.value))
  }

  /** A failure status is never empty and never reads "success". */
  lemma FailureStatusIsNotSuccess(status: string)
    requires IsFailureStatus(status)
    ensures status != "" && status != "success"
  {
    if StartsWith(status, "error: ") { assert status[0] == "error: "[0]; }
    if StartsWith(status, "exception: ") { assert status[0] == "exception: "[0]; }
  }

  // ---------------------------------------------------------------------------
  // run_query_with_memory_alt: sampling /proc/<pid>/status

  /**
   * What one poll of the status file gave while the child was alive: its lines,
   * FileNotFoundError/ProcessLookupError (the child is gone), or another exception.
   */
  datatype Snapshot = StatusFile(lines: seq<string>) | Vanished | ReadFailed(message: string)

  /**
   * One fallback run: Popen raised, or the child ran while `snapshots` were taken
   * (one per `process.poll() is None`), then exited with `exitCode`.
   */
  datatype FallbackRun =
    | SpawnFailed(message: string)
    | Spawned(snapshots: seq<Snapshot>, exitCode: int, stderr: string)

  /** The first "VmRSS:" line of a snapshot, its first integer read as kB and converted to bytes. */
  function VmRssBytes(lines: seq<string>): Option<nat>
  {
    if lines == [] then None
    else if StartsWith(lines[0], "VmRSS:") then
      match FirstDigitRun(lines[0])
      case Some(kb) => Some(kb * 1024)
      case None => None
    else VmRssBytes(lines[1..])
  }

  /** Index of the first snapshot that is not a status file: where polling stops. */
  function StopIndex(snaps: seq<Snapshot>): (n: nat)
    ensures n <= |snaps|
    ensures forall i :: 0 <= i < n ==> snaps[i].StatusFile?
    ensures n < |snaps| ==> !snaps[n].StatusFile?
  {
    if snaps == [] || !snaps[0].StatusFile? then 0
    else
      var m := StopIndex(snaps[1..]);
      assert forall i :: 1 <= i < m + 1 ==> snaps[i] == snaps[1..][i - 1];
      m + 1
  }

  /** What a snapshot adds to the running maximum. */
  function SampleOf(s: Snapshot): nat
  {
    if s.StatusFile? && VmRssBytes(s.lines).Some? then VmRssBytes(s.lines).value else 0
  }

  /** `peak_memory`: 0, raised by every larger sample, over the snapshots taken in order. */
  function RunningPeak(snaps: seq<Snapshot>): nat
  {
    if snaps == [] then 0
    else
      var p := RunningPeak(snaps[..|snaps| - 1]);
      var b := SampleOf(snaps[|snaps| - 1]);
      if b > p then b else p
  }

  /** The peak is at least every sample taken. */
  lemma {:induction false} PeakBoundsEverySample(snaps: seq<Snapshot>, k: nat)
    requires k < |snaps| && snaps[k].StatusFile? && VmRssBytes(snaps[k].lines).Some?
    ensures RunningPeak(snaps) >= VmRssBytes(snaps[k].lines).value
  {
    if k < |snaps| - 1 {
      PeakBoundsEverySample(snaps[..|snaps| - 1], k);
    }
  }

  /** The peak is 0 or a value some sample actually had: not, say, the last one's. */
  lemma {:induction false} PeakIsASample(snaps: seq<Snapshot>)
    ensures RunningPeak(snaps) == 0
            || exists k :: 0 <= k < |snaps| && SampleOf(snaps[k]) == RunningPeak(snaps)
  {
    if snaps != [] {
      var prefix := snaps[..|snaps| - 1];
      PeakIsASample(prefix);
      if RunningPeak(snaps) != SampleOf(snaps[|snaps| - 1]) && RunningPeak(snaps) != 0 {
        var k :| 0 <= k < |prefix| && SampleOf(prefix[k]) == RunningPeak(prefix);
        assert snaps[k] == prefix[k];
      }
    }
  }

  /** The line the kernel writes into /proc/<pid>/status for a resident size of ds kB. */
  function VmRssLine(ds: string): string
  {
    "VmRSS:\t" + ds + " kB"
  }

  /** Such a line contributes its digits, read as kB, in bytes. */
  lemma VmRssLineReading(ds: string)
    requires ds != [] && AllDigits(ds)
    ensures VmRssBytes([VmRssLine(ds)]) == Some(DecimalValue(ds) * 1024)
  {
    var line := VmRssLine(ds);
    assert line[..6] == "VmRSS:";
    assert line[7..7 + |ds|] == ds;
    FirstDigitRunIsLeftmostMaximal(line, 7, 7 + |ds|);
  }

  /** `run_query_with_memory_alt`, as a function of the run. */
  function FallbackResult(run: FallbackRun): Measurement
  {
    match run
    case SpawnFailed(msg) => Failure("exception: " + msg)
    case Spawned(snaps, code, err) =>
      var n := StopIndex(snaps);
      if n < |snaps| && snaps[n].ReadFailed? then Failure("exception: " + snaps[n].message)
      else
        var peak := RunningPeak(snaps[..n]);
        if code != 0 then Failure("error: " + Take(err, 200))
        else if peak == 0 then Failure("could not measure memory")
        else Success(peak)
  }

  /** The fallback's pair is well formed too: a peak is reported only when positive. */
  lemma FallbackWellFormed(run: FallbackRun)
    ensures WellFormedMeasurement(FallbackResult(run))
    ensures FallbackResult(run).peakBytes.Some? ==> FallbackResult(run).peakBytes.value > 0
  {
  }

  /**
   * A child that exits non-zero is reported as an error whatever was sampled,
   * and a zero peak is reported as a failure rather than as 0 bytes.
   */
  lemma FallbackFailureCases(snaps: seq<Snapshot>, code: int, err: string)
    requires forall i :: 0 <= i < |snaps| ==> !snaps[i].ReadFailed?
    ensures code != 0 ==> FallbackResult(Spawned(snaps, code, err)) == Failure("error: " + Take(err, 200))
    ensures code == 0 && RunningPeak(snaps[..StopIndex(snaps)]) == 0
            ==> FallbackResult(Spawned(snaps, code, err)) == Failure("could not measure memory")
    ensures FallbackResult(Spawned(snaps, code, err)).peakBytes.Some?
            ==> FallbackResult(Spawned(snaps, code, err)).peakBytes.value > 0
  {
  }

  /**
   * Memory that rises and then falls before the child exits (100, 300, then
   * 200 kB) is reported at its maximum, 300 kB, not at its last reading.
   */
  lemma RisingThenFallingReportsMaximum()
    ensures FallbackResult(Spawned([StatusFile([VmRssLine("100")]), StatusFile([VmRssLine("300")]),
                                    StatusFile([VmRssLine("200")])], 0, "")) == Success(300 * 1024)
  {
    var a, b, c := StatusFile([VmRssLine("100")]), StatusFile([VmRssLine("300")]), StatusFile([VmRssLine("200")]);
    assert SampleOf(a) == 100 * 1024 by { VmRssLineReading("100"); HundredsValue('1'); }
    assert SampleOf(b) == 300 * 1024 by { VmRssLineReading("300"); HundredsValue('3'); }
    assert SampleOf(c) == 200 * 1024 by { VmRssLineReading("200"); HundredsValue('2'); }
    var snaps := [a, b, c];
    assert RunningPeak([a]) == 100 * 1024 by { assert [a][..0] == []; }
    assert RunningPeak([a, b]) == 300 * 1024 by { assert [a, b][..1] == [a]; }
    assert RunningPeak(snaps) == 300 * 1024 by { assert snaps[..2] == [a, b]; }
    assert StopIndex(snaps) == 3 by {
      assert snaps[1..] == [b, c] && [b, c][1..] == [c] && [c][1..] == [];
    }
    assert snaps[..3] == snaps;
  }

  lemma HundredsValue(d: char)
    requires IsDigit(d)
    ensures AllDigits([d, '0', '0']) && DecimalValue([d, '0', '0']) == (d as int - '0' as int) * 100
  {
    assert [d][..0] == [];
    assert DecimalValue([d]) == d as int - '0' as int;
    assert [d, '0'][..1] == [d];
    assert DecimalValue([d, '0']) == (d as int - '0' as int) * 10;
    assert [d, '0', '0'][..2] == [d, '0'];
  }

  /** Reading the first "VmRSS:" line of one status snapshot (`for line in f ... break`). */
  method ReadVmRss(lines: seq<string>) returns (bytes: Option<nat>)
    ensures bytes == VmRssBytes(lines)
  {
    var j := 0;
    bytes := None;
    while j < |lines|
      invariant 0 <= j <= |lines|
      invariant VmRssBytes(lines) == VmRssBytes(lines[j..])
    {
      assert lines[j..][1..] == lines[j + 1..];
      if StartsWith(lines[j], "VmRSS:") {
        var kb := FirstDigitRun(lines[j]);
        if kb.Some? {
          bytes := Some(kb.value * 1024);
        }
        return;
      }
      j := j + 1;
    }
  }

  /** The polling loop of `run_query_with_memory_alt` over the snapshots of one run. */
  method RunFallback(run: FallbackRun) returns (m: Measurement)
    ensures m == FallbackResult(run)
  {
    if run.SpawnFailed? {
      return Failure("exception: " + run.message);
    }
    var snaps := run.snapshots;
    var peak := 0;
    var i := 0;
    while i < |snaps|
      invariant 0 <= i <= StopIndex(snaps)
      invariant peak == RunningPeak(snaps[..i])
    {
      assert snaps[..i + 1][..i] == snaps[..i];
      match snaps[i]
      case Vanished =>
        break;
      case ReadFailed(msg) =>
        return Failure("exception: " + msg);
      case StatusFile(lines) =>
        var bytes := ReadVmRss(lines);
        if bytes.Some? && bytes.value > peak {
          peak := bytes.value;
        }
        i := i + 1;
    }
    if run.exitCode != 0 {
      return Failure("error: " + Take(run.stderr, 200));
    }
    if peak == 0 {
      return Failure("could not measure memory");
    }
    return Success(peak);
  }

  // ---------------------------------------------------------------------------
  // run_query_with_memory

  /** `run_query_with_memory`: the primary strategy, with the fallback only when the tool is missing. */
  function MeasureQuery(primary: Outcome, fallback: FallbackRun): Measurement
  {
    match primary
    case Exited(code, _, err) =>
      if code != 0 then Failure("error: " + Take(err, 200))
      else
        (match ParseTimeOutput(err)
         case None => Failure("could not parse memory stats")
         case Some(kb) => Success(kb * 1024))
    case Timeout => Failure("timeout")
    case ToolMissing => FallbackResult(fallback)
    case OtherError(msg) => Failure("exception: " + msg)
  }

  /**
   * Whatever happens, exactly one half of the pair is present and a status is
   * one of the failure statuses; the fallback decides when the tool is missing.
   */
  lemma MeasureQueryWellFormed(primary: Outcome, fallback: FallbackRun)
    ensures WellFormedMeasurement(MeasureQuery(primary, fallback))
    ensures primary.ToolMissing? ==> MeasureQuery(primary, fallback) == FallbackResult(fallback)
  {
    if primary.ToolMissing? { FallbackWellFormed(fallback); }
  }

  /**
   * The primary outcome decides everything unless the tool is missing: a timeout,
   * a non-zero exit, unparseable output or another exception never falls back.
   */
  lemma FallbackOnlyWhenToolMissing(primary: Outcome, f1: FallbackRun, f2: FallbackRun)
    requires !primary.ToolMissing?
    ensures MeasureQuery(primary, f1) == MeasureQuery(primary, f2)
    ensures primary.Timeout? ==> MeasureQuery(primary, f1) == Failure("timeout")
    ensures primary.Exited? && primary.code == 0 && ParseTimeOutput(primary.stderr).None?
            ==> MeasureQuery(primary, f1) == Failure("could not parse memory stats")
    ensures primary.Exited? && primary.code == 0 && ParseTimeOutput(primary.stderr).Some?
            ==> MeasureQuery(primary, f1) == Success(ParseTimeOutput(primary.stderr).value * 1024)
  {
  }

  /** The same, step by step, calling the sampling loop when the tool is missing. */
  method RunQueryWithMemory(primary: Outcome, fallback: FallbackRun) returns (m: Measurement)
    ensures m == MeasureQuery(primary, fallback)
  {
    match primary
    case Exited(code, _, err) =>
      if code != 0 {
        return Failure("error: " + Take(err, 200));
      }
      var kb := ParseTimeOutput(err);
      if kb.None? {
        return Failure("could not parse memory stats");
      }
      return Success(kb.value * 1024);
    case Timeout =>
      return Failure("timeout");
    case ToolMissing =>
      m := RunFallback(fallback);
    case OtherError(msg) =>
      return Failure("exception: " + msg);
  }

  // ---------------------------------------------------------------------------
  // main: one row per repetition

  /** A memory CSV row: mode, query, rep, peak_memory_bytes, peak_memory_mb, status. */
  datatype MemoryRow = MemoryRow(mode: string, query: string, rep: nat, peakBytes: int, peakMb: real, status: string)

  /** What each invocation gives: the primary outcome and the fallback run, by (position of the query, rep). */
  type Runs = (nat, nat) -> (Outcome, FallbackRun)

  function RepCount(reps: int): nat { if reps > 0 then reps else 0 }

  /** The row written for one repetition. */
  function RowFor(mode: string, q: string, rep: nat, m: Measurement): MemoryRow
  {
    if m.peakBytes.Some? then
      MemoryRow(mode, q, rep, m.peakBytes.value, m.peakBytes.value as real / (1024.0 * 1024.0), "success")
    else
      MemoryRow(mode, q, rep, -1, -1.0, if m.status.Some? && m.status.value != "" then m.status.value else "failed")
  }

  /** A row is either a genuine measurement marked "success" or the −1 sentinel with a failure status. */
  predicate SentinelOrSuccess(row: MemoryRow)
  {
    (row.status == "success" && row.peakBytes >= 0 && row.peakMb == row.peakBytes as real / (1024.0 * 1024.0))
    || (row.peakBytes == -1 && row.peakMb == -1.0 && IsFailureStatus(row.status))
  }

  /** The pair each invocation yields, by (position of the query, rep). */
  type Measurements = (nat, nat) -> Measurement

  /** The pairs `run_query_with_memory` makes of the given invocations. */
  function MeasurementsOf(runs: Runs): Measurements
  {
    (pos: nat, rep: nat) => MeasureQuery(runs(pos, rep).0, runs(pos, rep).1)
  }

  ghost predicate AllWellFormed(ms: Measurements)
  {
    forall pos, rep :: WellFormedMeasurement(ms(pos, rep))
  }

  lemma MeasurementsOfWellFormed(runs: Runs)
    ensures AllWellFormed(MeasurementsOf(runs))
  {
    forall pos: nat, rep: nat ensures WellFormedMeasurement(MeasurementsOf(runs)(pos, rep)) {
      MeasureQueryWellFormed(runs(pos, rep).0, runs(pos, rep).1);
    }
  }

  /** A row written for a well-formed measurement is a success or a sentinel, never both. */
  lemma RowForIsSentinelOrSuccess(mode: string, q: string, rep: nat, m: Measurement)
    requires WellFormedMeasurement(m)
    ensures SentinelOrSuccess(RowFor(mode, q, rep, m))
    ensures RowFor(mode, q, rep, m).status == "success" <==> m.peakBytes.Some?
  {
    if m.status.Some? { FailureStatusIsNotSuccess(m.status.value); }
  }

  /** The rows of one known query, repetitions 1..n. */
  function QueryRows(mode: string, q: string, pos: nat, n: nat, ms: Measurements): seq<MemoryRow>
  {
    if n == 0 then [] else QueryRows(mode, q, pos, n - 1, ms) + [RowFor(mode, q, n, ms(pos, n))]
  }

  /** Row k of a query's rows is the row of repetition k + 1. */
  lemma {:induction false} QueryRowsElements(mode: string, q: string, pos: nat, n: nat, ms: Measurements)
    ensures |QueryRows(mode, q, pos, n, ms)| == n
    ensures forall k :: 0 <= k < n ==> QueryRows(mode, q, pos, n, ms)[k] == RowFor(mode, q, k + 1, ms(pos, k + 1))
  {
    if n > 0 {
      QueryRowsElements(mode, q, pos, n - 1, ms);
    }
  }

  /** What a repetition's row records: its query, its number, and a success or a sentinel. */
  predicate RecordsRep(row: MemoryRow, mode: string, q: string, rep: nat)
  {
    row.mode == mode && row.query == q && row.rep == rep && SentinelOrSuccess(row)
  }

  /** A known query yields exactly reps rows, numbered 1..reps, each a success or a −1 sentinel. */
  lemma QueryRowsShape(mode: string, q: string, pos: nat, n: nat, ms: Measurements)
    requires AllWellFormed(ms)
    ensures |QueryRows(mode, q, pos, n, ms)| == n
    ensures forall k :: 0 <= k < n ==> RecordsRep(QueryRows(mode, q, pos, n, ms)[k], mode, q, k + 1)
  {
    QueryRowsElements(mode, q, pos, n, ms);
    forall k | 0 <= k < n ensures RecordsRep(QueryRows(mode, q, pos, n, ms)[k], mode, q, k + 1) {
      RowForIsSentinelOrSuccess(mode, q, k + 1, ms(pos, k + 1));
    }
  }

  /** The rows written for the first n requested names; unknown names write nothing. */
  function MemoryRows(mode: string, c: Catalog<string>, names: seq<string>, reps: int, ms: Measurements, n: nat): seq<MemoryRow>
    requires n <= |names|
  {
    if n == 0 then []
    else
      MemoryRows(mode, c, names, reps, ms, n - 1)
      + (if Lookup(c, names[n - 1]).Some? then QueryRows(mode, names[n - 1], n - 1, RepCount(reps), ms) else [])
  }

  /** How many of the first n requested names are in the catalog. */
  function KnownCount(c: Catalog<string>, names: seq<string>, n: nat): nat
    requires n <= |names|
  {
    if n == 0 then 0 else KnownCount(c, names, n - 1) + (if Lookup(c, names[n - 1]).Some? then 1 else 0)
  }

  /** A row that belongs to a catalog query and is a success or a sentinel. */
  predicate KnownQueryRow(row: MemoryRow, mode: string, c: Catalog<string>, reps: int)
  {
    row.mode == mode && Lookup(c, row.query).Some? && 1 <= row.rep <= RepCount(reps) && SentinelOrSuccess(row)
  }

  /** Appending the rows of a known query keeps every row a known-query row. */
  lemma AppendKnownRows(mode: string, c: Catalog<string>, reps: int, q: string, prev: seq<MemoryRow>, block: seq<MemoryRow>)
    requires Lookup(c, q).Some?
    requires |block| == RepCount(reps)
    requires forall k :: 0 <= k < |block| ==> RecordsRep(block[k], mode, q, k + 1)
    requires forall i :: 0 <= i < |prev| ==> KnownQueryRow(prev[i], mode, c, reps)
    ensures forall i :: 0 <= i < |prev + block| ==> KnownQueryRow((prev + block)[i], mode, c, reps)
  {
    forall i | 0 <= i < |prev + block| ensures KnownQueryRow((prev + block)[i], mode, c, reps) {
      if i >= |prev| {
        assert (prev + block)[i] == block[i - |prev|];
        assert RecordsRep(block[i - |prev|], mode, q, i - |prev| + 1);
      } else {
        assert (prev + block)[i] == prev[i];
      }
    }
  }

  lemma OneMoreBlock(k: nat, r: nat)
    ensures (k + 1) * r == k * r + r
  {
  }

  /**
   * Each known name yields exactly reps rows, unknown names none; every row
   * names a catalog query, has a repetition number in 1..reps, and is a
   * success or a −1 sentinel.
   */
  lemma {:induction false} MemoryRowsShape(mode: string, c: Catalog<string>, names: seq<string>, reps: int, ms: Measurements, n: nat)
    requires n <= |names|
    requires AllWellFormed(ms)
    ensures |MemoryRows(mode, c, names, reps, ms, n)| == KnownCount(c, names, n) * RepCount(reps)
    ensures forall i :: 0 <= i < |MemoryRows(mode, c, names, reps, ms, n)| ==>
              KnownQueryRow(MemoryRows(mode, c, names, reps, ms, n)[i], mode, c, reps)
  {
    if n > 0 {
      MemoryRowsShape(mode, c, names, reps, ms, n - 1);
      var prev := MemoryRows(mode, c, names, reps, ms, n - 1);
      var q := names[n - 1];
      var k := KnownCount(c, names, n - 1);
      var r := RepCount(reps);
      if Lookup(c, q).Some? {
        var block := QueryRows(mode, q, n - 1, r, ms);
        QueryRowsShape(mode, q, n - 1, r, ms);
        assert MemoryRows(mode, c, names, reps, ms, n) == prev + block;
        assert KnownCount(c, names, n) == k + 1;
        OneMoreBlock(k, r);
        AppendKnownRows(mode, c, reps, q, prev, block);
      } else {
        assert MemoryRows(mode, c, names, reps, ms, n) == prev;
        assert KnownCount(c, names, n) == k;
      }
    }
  }

  /** The repetitions of one known query (the inner loop of `main`). */
  method MeasureReps(mode: string, q: string, pos: nat, reps: int, runs: Runs) returns (block: seq<MemoryRow>)
    ensures block == QueryRows(mode, q, pos, RepCount(reps), MeasurementsOf(runs))
  {
    block := [];
    var rep := 1;
    while rep <= reps
      invariant 1 <= rep <= RepCount(reps) + 1
      invariant |block| == rep - 1
      invariant forall k :: 0 <= k < rep - 1 ==> block[k] == RowFor(mode, q, k + 1, MeasurementsOf(runs)(pos, k + 1))
    {
      var (primary, fallback) := runs(pos, rep);
      var m := RunQueryWithMemory(primary, fallback);
      var row;
      if m.peakBytes.Some? {
        row := MemoryRow(mode, q, rep, m.peakBytes.value, m.peakBytes.value as real / (1024.0 * 1024.0), "success");
      } else {
        row := MemoryRow(mode, q, rep, -1, -1.0, if m.status.Some? && m.status.value != "" then m.status.value else "failed");
      }
      block := block + [row];
      rep := rep + 1;
    }
    QueryRowsElements(mode, q, pos, RepCount(reps), MeasurementsOf(runs));
  }

  /** The nested loops of `main`: rows in the order written, after the header. */
  method MeasureAll(mode: string, c: Catalog<string>, requested: Option<seq<string>>, reps: int, runs: Runs)
    returns (rows: seq<MemoryRow>)
    ensures var names := QueriesToRun(c, requested);
            rows == MemoryRows(mode, c, names, reps, MeasurementsOf(runs), |names|)
  {
    var names := QueriesToRun(c, requested);
    rows := [];
    var i := 0;
    while i < |names|
      invariant 0 <= i <= |names|
      invariant rows == MemoryRows(mode, c, names, reps, MeasurementsOf(runs), i)
    {
      var qname := names[i];
      if Lookup(c, qname).None? {
        i := i + 1;
        continue;
      }
      var block := MeasureReps(mode, qname, i, reps, runs);
      rows := rows + block;
      i := i + 1;
    }
  }
}
