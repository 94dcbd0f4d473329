/**
 * `merge_ycsb_large.py`: for workload `b` at five data-set scales, averages
 * per method and scale the throughput of the first line of each file that
 * matches the workload's phase, and writes one line per scale to a file
 * whose name records the `dynamic` argument.
 */
module MergeYcsbLarge {
  import opened Wrappers
  import opened PyStr
  import opened ResultFile
  import Report
  import opened Sums

  const Workload: string := "b"
  const Methods: seq<string> := ["mnemosyne-plus", "mnemosyne", "default"]
  const Scales: seq<string> := ["scale1x", "scale2x", "scale3x", "scale4x", "scale5x"]
  const ScaleLabels: seq<string> := ["10GB", "20GB", "30GB", "40GB", "50GB"]

  // ---------------------------------------------------------------------------
  // The `dynamic` argument and the output file
  // ---------------------------------------------------------------------------

  /** The two spellings of the third argument that switch `dynamic` on. */
  predicate DynamicArg(arg: string) {
    arg == "True" || arg == "true"
  }

  /** `dynamic = False`, set to `True` when the third argument is `"True"` or `"true"`. */
  method ReadDynamic(arg: string) returns (dynamic: bool)
    ensures dynamic <==> DynamicArg(arg)
  {
    dynamic := false;
    if arg == "True" || arg == "true" {
      dynamic := true;
    }
  }

  /** The output file: `_dynamic_exp.txt` or `_no_dynamic_exp.txt` after the workload's name. */
  function OutputPath(dir: string, dynamic: bool): string {
    if dynamic then dir + "/ycsb_scalability_workload" + Workload + "_dynamic_exp.txt"
    else dir + "/ycsb_scalability_workload" + Workload + "_no_dynamic_exp.txt"
  }

  /** A suffix of `s`. */
  predicate EndsWith(s: string, suffix: string) {
    |suffix| <= |s| && s[|s| - |suffix|..] == suffix
  }

  lemma EndsWithAppend(a: string, b: string)
    ensures EndsWith(a + b, b)
  {
    assert (a + b)[|a|..] == b;
  }

  /**
   * Both names share the directory and the stem; the name ends in
   * `_no_dynamic_exp.txt` exactly when `dynamic` is off, so the two settings
   * never write the same file.
   */
  lemma OutputPathDynamic(dir: string, dynamic: bool)
    ensures EndsWith(OutputPath(dir, dynamic), "_dynamic_exp.txt")
    ensures EndsWith(OutputPath(dir, dynamic), "_no_dynamic_exp.txt") <==> !dynamic
    ensures OutputPath(dir, true) != OutputPath(dir, false)
  {
    var stem := dir + "/ycsb_scalability_workload" + Workload;
    var on, off := OutputPath(dir, true), OutputPath(dir, false);
    EndsWithAppend(stem, "_dynamic_exp.txt");
    EndsWithAppend(stem, "_no_dynamic_exp.txt");
    assert off == (stem + "_no") + "_dynamic_exp.txt";
    EndsWithAppend(stem + "_no", "_dynamic_exp.txt");
    assert on[|on| - 17] == 'b' != "_no_dynamic_exp.txt"[2];
  }

  // ---------------------------------------------------------------------------
  // One result file: `aggregate`
  // ---------------------------------------------------------------------------

  /**
   * The marker that counts for a workload: `Load throughput` lines only for
   * the workload `"Load"`, `Run throughput` lines for every other one.
   */
  function Wanted(workload: string): Marker {
    if workload == "Load" then LoadMarker else RunMarker
  }

  /** What a file yields: no matching line, the first matching line's number, or a number `float` rejects. */
  datatype Match = NoMatch | Matched(value: real) | Unreadable

  /** What a file adds to its scale's slot. */
  function Contribution(r: Match): real {
    if r.Matched? then r.value else 0.0
  }

  /** The number of a line with the wanted marker: `float` either accepts it or raises. */
  function MatchOf(line: Line): Match {
    match line.reading
    case None => Unreadable
    case Some(v) => Matched(v)
  }

  /**
   * `aggregate` on the viewed lines of one file: lines without the wanted
   * marker are skipped unread, and the first line with it decides.
   */
  function FirstReading(lines: seq<Line>, workload: string): Match
    decreases |lines|
  {
    if lines == [] then NoMatch
    else if lines[0].marker == Wanted(workload) then MatchOf(lines[0])
    else FirstReading(lines[1..], workload)
  }

  /** One step of FirstReading from line `i`. */
  lemma FirstReadingFrom(lines: seq<Line>, i: nat, workload: string)
    requires i < |lines|
    ensures FirstReading(lines[i..], workload) ==
      if lines[i].marker == Wanted(workload) then MatchOf(lines[i]) else FirstReading(lines[i + 1..], workload)
  {
    assert lines[i..][0] == lines[i];
    assert lines[i..][1..] == lines[i + 1..];
  }

  /** The scan decides at the first line with the wanted marker, or finds nothing when there is none. */
  lemma {:induction false} FirstReadingAtFirstMarker(lines: seq<Line>, workload: string)
    ensures var f := FirstMarker(lines, Wanted(workload));
      FirstReading(lines, workload) == if f == |lines| then NoMatch else MatchOf(lines[f])
    decreases |lines|
  {
    if lines != [] && lines[0].marker != Wanted(workload) {
      FirstReadingAtFirstMarker(lines[1..], workload);
    }
  }

  /**
   * A file yields nothing exactly when no line carries the wanted marker,
   * and a number only when some line carrying it reports that number.
   */
  lemma FirstReadingSpec(lines: seq<Line>, workload: string)
    ensures FirstReading(lines, workload) == NoMatch <==>
      forall i :: 0 <= i < |lines| ==> lines[i].marker != Wanted(workload)
    ensures FirstReading(lines, workload).Matched? ==>
      exists i :: 0 <= i < |lines| && lines[i].marker == Wanted(workload) &&
        lines[i].reading == Some(FirstReading(lines, workload).value)
  {
    FirstReadingAtFirstMarker(lines, workload);
    var f := FirstMarker(lines, Wanted(workload));
    if f < |lines| {
      assert lines[f].marker == Wanted(workload);
    }
  }

  /** With the workload the script fixes, `Load throughput` lines never count. */
  lemma {:induction false} LoadLinesNeverCount(lines: seq<Line>, i: nat, x: Line)
    requires i < |lines| && lines[i].marker == LoadMarker && x.marker != RunMarker
    ensures FirstReading(lines[i := x], Workload) == FirstReading(lines, Workload)
  {
    FirstMarkerIgnores(lines, i, x, RunMarker);
    FirstReadingAtFirstMarker(lines, Workload);
    FirstReadingAtFirstMarker(lines[i := x], Workload);
  }

  /** Replacing a line that does not carry `kind` by another that does not leaves the first `kind` line where it was. */
  lemma {:induction false} FirstMarkerIgnores(lines: seq<Line>, i: nat, x: Line, kind: Marker)
    requires i < |lines| && lines[i].marker != kind && x.marker != kind
    ensures FirstMarker(lines[i := x], kind) == FirstMarker(lines, kind)
    decreases |lines|
  {
    if i > 0 {
      assert lines[i := x][1..] == lines[1..][i - 1 := x];
      FirstMarkerIgnores(lines[1..], i - 1, x, kind);
    } else {
      assert lines[i := x][1..] == lines[1..];
    }
  }

  /** At most one line counts: lines after the first wanted line change nothing. */
  lemma IgnoresAfterMatch(lines: seq<Line>, extra: seq<Line>, workload: string)
    requires FirstMarker(lines, Wanted(workload)) < |lines|
    ensures FirstReading(lines + extra, workload) == FirstReading(lines, workload)
  {
    var f := FirstMarker(lines, Wanted(workload));
    FirstMarkerAppend(lines, extra, Wanted(workload));
    FirstReadingAtFirstMarker(lines, workload);
    FirstReadingAtFirstMarker(lines + extra, workload);
    assert (lines + extra)[f] == lines[f];
  }

  /**
   * `aggregate(filename, result, scale_index)` on the lines of the file:
   * the first stripped line that starts with `Load throughput` while the
   * workload is `"Load"`, or with `Run throughput` while it is not, adds
   * its number to `result[scale_index]` and ends the scan. `ok` is false
   * when `float` raises; no other slot ever changes.
   */
  method Aggregate(data: seq<string>, result: array<real>, scaleIndex: nat, workload: string,
                   parse: string -> Option<real>) returns (ok: bool)
    requires scaleIndex < result.Length
    modifies result
    ensures ok <==> !FirstReading(Views(data, parse), workload).Unreadable?
    ensures ok ==> result[scaleIndex] == old(result[scaleIndex]) + Contribution(FirstReading(Views(data, parse), workload))
    ensures forall s :: 0 <= s < result.Length && s != scaleIndex ==> result[s] == old(result[s])
  {
    ghost var views := Views(data, parse);
    assert views[0..] == views;
    var i := 0;
    while i < |data|
      invariant i <= |data|
      invariant FirstReading(views, workload) == FirstReading(views[i..], workload)
      invariant forall s :: 0 <= s < result.Length ==> result[s] == old(result[s])
    {
      FirstReadingFrom(views, i, workload);
      var line := ReadLine(data, i, parse);
      if line.marker == LoadMarker && workload == "Load" {
        if line.reading.None? {
          return false;
        }
        result[scaleIndex] := result[scaleIndex] + line.reading.value;
        return true;
      } else if line.marker == RunMarker && workload != "Load" {
        if line.reading.None? {
          return false;
        }
        result[scaleIndex] := result[scaleIndex] + line.reading.value;
        return true;
      }
      i := i + 1;
    }
    assert views[i..] == [];
    return true;
  }

  // ---------------------------------------------------------------------------
  // Paths
  // ---------------------------------------------------------------------------

  /** `exp_dir + "/" + scale + "/run" + str(k) + "/" + method + "_workload" + workload + "_ycsb_result.txt"`. */
  function InputPath(dir: string, scale: string, k: nat, m: string): string {
    dir + "/" + scale + "/run" + Decimal(k) + "/" + m + "_workload" + Workload + "_ycsb_result.txt"
  }

  /** The path read as the scale directory's prefix, then the run number and the rest. */
  lemma InputPathAfterRun(dir: string, scale: string, k: nat, m: string)
    ensures InputPath(dir, scale, k, m) ==
      (dir + "/" + scale + "/run") + (Decimal(k) + "/" + (m + ("_workload" + Workload + "_ycsb_result.txt")))
  {
  }

  /** Within one scale directory, different runs or methods read different files. */
  lemma InputPathRun(dir: string, scale: string, k1: nat, m1: string, k2: nat, m2: string)
    requires InputPath(dir, scale, k1, m1) == InputPath(dir, scale, k2, m2)
    ensures k1 == k2 && m1 == m2
  {
    var tail := "_workload" + Workload + "_ycsb_result.txt";
    InputPathAfterRun(dir, scale, k1, m1);
    InputPathAfterRun(dir, scale, k2, m2);
    CancelPrefix(dir + "/" + scale + "/run", Decimal(k1) + "/" + (m1 + tail), Decimal(k2) + "/" + (m2 + tail));
    DecimalThenSlash(k1, m1 + tail, k2, m2 + tail);
    assert m1 == (m1 + tail)[..|m1|] && m2 == (m2 + tail)[..|m2|];
  }

  /** Neither output file is ever one of the input files. */
  lemma OutputNotAnInput(dir: string, dynamic: bool, scale: string, k: nat, m: string)
    ensures OutputPath(dir, dynamic) != InputPath(dir, scale, k, m)
  {
    var input := InputPath(dir, scale, k, m);
    var output := OutputPath(dir, dynamic);
    assert input[|input| - 4..] == ".txt" && output[|output| - 4..] == ".txt";
    assert input[|input| - 8..|input| - 4] == "sult";
    assert output[|output| - 8..|output| - 4] == "_exp";
  }

  // ---------------------------------------------------------------------------
  // The grid: methods x scales x runs 1..runs, then the divisions
  // ---------------------------------------------------------------------------

  /** What `aggregate` makes of a file that exists. */
  function FileMatch(e: Experiment, path: string): Match
    requires path in e.files
  {
    FirstReading(Views(e.files[path], e.parse), Workload)
  }

  /** The file exists and `aggregate` gets through it. */
  predicate FileReads(e: Experiment, path: string) {
    path in e.files && !FileMatch(e, path).Unreadable?
  }

  /** What a file that reads adds to its slot (nothing for one that does not: the run stops there). */
  function FileValue(e: Experiment, path: string): real {
    if FileReads(e, path) then Contribution(FileMatch(e, path)) else 0.0
  }

  /** The reading of run `k` at a scale. */
  function RunValue(e: Experiment, m: string, scale: string): nat -> real {
    (k: nat) => FileValue(e, InputPath(e.dir, scale, k, m))
  }

  /** The readings of runs 1..runs at a scale, summed. */
  function ScaleRuns(e: Experiment, m: string, scale: string, runs: int): real {
    SumTo(RunValue(e, m, scale), runs)
  }

  /** The files of runs 1..runs at a scale all exist and read. */
  predicate RunsRead(e: Experiment, m: string, scale: string, runs: int)
    decreases runs
  {
    runs <= 0 || (RunsRead(e, m, scale, runs - 1) && FileReads(e, InputPath(e.dir, scale, runs, m)))
  }

  /** The files of scales 0..count-1, over all runs, all exist and read. */
  predicate ScalesRead(e: Experiment, m: string, scales: seq<string>, count: nat)
    requires count <= |scales|
  {
    count == 0 || (ScalesRead(e, m, scales, count - 1) && RunsRead(e, m, scales[count - 1], e.runs))
  }

  /** Every file of method `m` the loops open exists and reads. */
  predicate RowReads(e: Experiment, m: string, scales: seq<string>) {
    ScalesRead(e, m, scales, |scales|)
  }

  predicate GridReads(e: Experiment, methods: seq<string>, scales: seq<string>) {
    forall i :: 0 <= i < |methods| ==> RowReads(e, methods[i], scales)
  }

  lemma {:induction false} RunsReadFile(e: Experiment, m: string, scale: string, runs: nat, k: nat)
    requires 1 <= k <= runs
    ensures RunsRead(e, m, scale, runs) ==> FileReads(e, InputPath(e.dir, scale, k, m))
    decreases runs
  {
    if k < runs {
      RunsReadFile(e, m, scale, runs - 1, k);
    }
  }

  lemma {:induction false} ScalesReadFile(e: Experiment, m: string, scales: seq<string>, count: nat, j: nat, k: nat)
    requires count <= |scales| && j < count && 1 <= k <= e.runs
    ensures ScalesRead(e, m, scales, count) ==> FileReads(e, InputPath(e.dir, scales[j], k, m))
    decreases count
  {
    if j < count - 1 {
      ScalesReadFile(e, m, scales, count - 1, j, k);
    } else {
      RunsReadFile(e, m, scales[j], e.runs, k);
    }
  }

  lemma {:induction false} RunsReadAll(e: Experiment, m: string, scale: string, runs: int)
    requires forall k :: 1 <= k <= runs ==> FileReads(e, InputPath(e.dir, scale, k, m))
    ensures RunsRead(e, m, scale, runs)
    decreases runs
  {
    if runs > 0 {
      RunsReadAll(e, m, scale, runs - 1);
    }
  }

  lemma {:induction false} ScalesReadAll(e: Experiment, m: string, scales: seq<string>, count: nat)
    requires count <= |scales|
    requires forall j, k :: 0 <= j < count && 1 <= k <= e.runs ==> FileReads(e, InputPath(e.dir, scales[j], k, m))
    ensures ScalesRead(e, m, scales, count)
    decreases count
  {
    if count > 0 {
      ScalesReadAll(e, m, scales, count - 1);
      RunsReadAll(e, m, scales[count - 1], e.runs);
    }
  }

  /** A method's row reads exactly when every one of its files exists and `aggregate` gets through it. */
  lemma RowReadsEveryFile(e: Experiment, m: string, scales: seq<string>)
    ensures RowReads(e, m, scales) <==>
      forall j, k :: 0 <= j < |scales| && 1 <= k <= e.runs ==> FileReads(e, InputPath(e.dir, scales[j], k, m))
  {
    if RowReads(e, m, scales) {
      forall j, k | 0 <= j < |scales| && 1 <= k <= e.runs
        ensures FileReads(e, InputPath(e.dir, scales[j], k, m))
      {
        ScalesReadFile(e, m, scales, |scales|, j, k);
      }
    }
    if forall j, k :: 0 <= j < |scales| && 1 <= k <= e.runs ==> FileReads(e, InputPath(e.dir, scales[j], k, m)) {
      ScalesReadAll(e, m, scales, |scales|);
    }
  }

  /** `p` is one of the files the loops open for method `m`. */
  ghost predicate IsInput(e: Experiment, m: string, scales: seq<string>, p: string) {
    exists j, k :: 0 <= j < |scales| && 1 <= k <= e.runs && p == InputPath(e.dir, scales[j], k, m)
  }

  /** The failure is really there: a file of method `m` that is missing or that `float` rejects. */
  ghost predicate Explains(e: Experiment, m: string, scales: seq<string>, failure: Failure) {
    match failure
    case MissingFile(p) => IsInput(e, m, scales, p) && p !in e.files
    case Unparsable(p) => IsInput(e, m, scales, p) && p in e.files && FileMatch(e, p).Unreadable?
    case ZeroDivision => false
  }

  /** The averaged row of method `m`: every scale's total divided by `runs`. */
  function ExpectedRow(e: Experiment, m: string, scales: seq<string>): (row: seq<real>)
    requires e.runs != 0
    ensures |row| == |scales|
  {
    seq(|scales|, j requires 0 <= j < |scales| => ScaleRuns(e, m, scales[j], e.runs) / (e.runs as real))
  }

  /** A file of the grid that does not read explains the failure and spoils the row. */
  lemma FailedFileExplains(e: Experiment, m: string, scales: seq<string>, j: nat, k: nat)
    requires j < |scales| && 1 <= k <= e.runs
    requires !FileReads(e, InputPath(e.dir, scales[j], k, m))
    ensures !RunsRead(e, m, scales[j], e.runs) && !RowReads(e, m, scales)
    ensures Explains(e, m, scales, FileFailure(e, InputPath(e.dir, scales[j], k, m)))
  {
    ScalesReadFile(e, m, scales, |scales|, j, k);
    RunsReadFile(e, m, scales[j], e.runs, k);
    assert IsInput(e, m, scales, InputPath(e.dir, scales[j], k, m));
  }

  /** Once the loop over runs is past `runs`, it has covered runs 1..runs (none when `runs <= 0`). */
  lemma RunsCovered(e: Experiment, m: string, scale: string, k: int)
    requires 1 <= k && e.runs < k && (k <= e.runs + 1 || k == 1)
    ensures ScaleRuns(e, m, scale, k - 1) == ScaleRuns(e, m, scale, e.runs)
    ensures RunsRead(e, m, scale, k - 1) == RunsRead(e, m, scale, e.runs)
  {
  }

  /**
   * `aggregate(filename, result, j)` with the opening of the file: a missing
   * file or a number `float` rejects stops the run; otherwise the file's
   * number, if it has one, is added to slot `j`.
   */
  method AggregateFile(e: Experiment, path: string, row: array<real>, j: nat) returns (failure: Option<Failure>)
    requires j < row.Length
    modifies row
    ensures failure.None? <==> FileReads(e, path)
    ensures failure.Some? ==> failure.value == FileFailure(e, path)
    ensures failure.None? ==> row[j] == old(row[j]) + FileValue(e, path)
    ensures forall s :: 0 <= s < row.Length && s != j ==> row[s] == old(row[s])
  {
    if path !in e.files {
      return Some(MissingFile(path));
    }
    var ok := Aggregate(e.files[path], row, j, Workload, e.parse);
    if !ok {
      return Some(Unparsable(path));
    }
    return None;
  }

  /**
   * The innermost loop: `aggregate` on the file of every run 1..runs at
   * scale `j`, stopping at the first file that is missing or that `float`
   * rejects.
   */
  method AddRuns(e: Experiment, m: string, scales: seq<string>, j: nat, row: array<real>) returns (failure: Option<Failure>)
    requires j < |scales| && row.Length == |scales|
    modifies row
    ensures failure.None? <==> RunsRead(e, m, scales[j], e.runs)
    ensures failure.None? ==> row[j] == old(row[j]) + ScaleRuns(e, m, scales[j], e.runs)
    ensures forall s :: 0 <= s < row.Length && s != j ==> row[s] == old(row[s])
    ensures failure.Some? ==> !RowReads(e, m, scales) && Explains(e, m, scales, failure.value)
  {
    var k := 1;
    while k <= e.runs
      invariant 1 <= k && (k <= e.runs + 1 || k == 1)
      invariant row[j] == old(row[j]) + ScaleRuns(e, m, scales[j], k - 1)
      invariant forall s :: 0 <= s < row.Length && s != j ==> row[s] == old(row[s])
      invariant RunsRead(e, m, scales[j], k - 1)
    {
      var path := InputPath(e.dir, scales[j], k, m);
      failure := AggregateFile(e, path, row, j);
      if failure.Some? {
        FailedFileExplains(e, m, scales, j, k);
        return;
      }
      k := k + 1;
    }
    RunsCovered(e, m, scales[j], k);
    return None;
  }

  /**
   * The loops for one method: `[0 for _ in scales]`, then the files of
   * every scale in turn, stopping at the first file that is missing or
   * that `float` rejects.
   */
  method FillRow(e: Experiment, m: string, scales: seq<string>) returns (row: array<real>, failure: Option<Failure>)
    ensures fresh(row) && row.Length == |scales|
    ensures failure.None? <==> RowReads(e, m, scales)
    ensures failure.None? ==> forall j :: 0 <= j < |scales| ==> row[j] == ScaleRuns(e, m, scales[j], e.runs)
    ensures failure.Some? ==> Explains(e, m, scales, failure.value)
  {
    row := new real[|scales|](_ => 0.0);
    for j := 0 to |scales|
      invariant forall j' :: 0 <= j' < j ==> row[j'] == ScaleRuns(e, m, scales[j'], e.runs)
      invariant forall j' :: j <= j' < |scales| ==> row[j'] == 0.0
      invariant ScalesRead(e, m, scales, j)
    {
      failure := AddRuns(e, m, scales, j, row);
      if failure.Some? {
        return;
      }
    }
    failure := None;
  }

  /** The divisions after the loops: `result[j] /= runs*1.0` for every scale. */
  method Normalize(row: array<real>, runs: int)
    requires runs != 0
    modifies row
    ensures forall j :: 0 <= j < row.Length ==> row[j] == old(row[j]) / (runs as real)
  {
    for j := 0 to row.Length
      invariant forall j' :: 0 <= j' < j ==> row[j'] == old(row[j']) / (runs as real)
      invariant forall j' :: j <= j' < row.Length ==> row[j'] == old(row[j'])
    {
      row[j] := row[j] / (runs as real);
    }
  }

  /**
   * The main loop over methods: each method's row is filled and divided in
   * turn; the run stops at the first missing or unreadable file, or at the
   * first division when `runs` is 0.
   */
  method AggregateAll(e: Experiment, methods: seq<string>, scales: seq<string>) returns (outcome: Outcome<Report.Table>)
    requires |scales| >= 1
    ensures outcome.Done? <==> GridReads(e, methods, scales) && (e.runs != 0 || methods == [])
    ensures outcome.Done? ==> outcome.value.Keys == set m | m in methods
    ensures outcome.Done? ==> forall m :: m in methods ==>
      e.runs != 0 && m in outcome.value && outcome.value[m] == ExpectedRow(e, m, scales)
    ensures outcome.Failed? ==>
      (outcome.failure == ZeroDivision && e.runs == 0) ||
      exists i :: 0 <= i < |methods| && Explains(e, methods[i], scales, outcome.failure)
  {
    var table: Report.Table := map[];
    for i := 0 to |methods|
      invariant table.Keys == set m | m in methods[..i]
      invariant forall m :: m in table ==> e.runs != 0 && table[m] == ExpectedRow(e, m, scales)
      invariant forall n :: 0 <= n < i ==> RowReads(e, methods[n], scales)
      invariant i > 0 ==> e.runs != 0
    {
      var row, failure := FillRow(e, methods[i], scales);
      if failure.Some? {
        return Failed(failure.value);
      }
      if e.runs == 0 {
        return Failed(ZeroDivision);
      }
      Normalize(row, e.runs);
      assert row[..] == ExpectedRow(e, methods[i], scales);
      assert methods[..i + 1] == methods[..i] + [methods[i]];
      table := table[methods[i] := row[..]];
    }
    assert methods[..|methods|] == methods;
    return Done(table);
  }

  // What the averages mean.

  /**
   * Every slot is a true mean over the runs: when every file of a scale
   * reports the same throughput `v`, the written figure is `v`.
   */
  lemma ScaleSlotOfUniform(e: Experiment, m: string, scales: seq<string>, j: nat, v: real)
    requires e.runs >= 1 && j < |scales|
    requires forall k :: 1 <= k <= e.runs ==> FileValue(e, InputPath(e.dir, scales[j], k, m)) == v
    ensures ExpectedRow(e, m, scales)[j] == v
  {
    var runs: nat := e.runs;
    forall k: nat | 1 <= k <= runs
      ensures RunValue(e, m, scales[j])(k) == v
    {
    }
    SumToConstant(RunValue(e, m, scales[j]), runs, v);
    ScaleMean(ScaleRuns(e, m, scales[j], e.runs), runs, v);
  }

  /** `runs` copies of `v`, divided by `runs`, give `v` back. */
  lemma ScaleMean(total: real, runs: nat, v: real)
    requires runs >= 1 && total == (runs as real) * v
    ensures total / (runs as real) == v
  {
  }

  /**
   * A scale's slot is the mean of its runs' readings: it lies between the
   * smallest and the largest of them.
   */
  lemma ScaleSlotIsMean(e: Experiment, m: string, scales: seq<string>, j: nat, lo: real, hi: real)
    requires e.runs >= 1 && j < |scales|
    requires forall k :: 1 <= k <= e.runs ==> lo <= FileValue(e, InputPath(e.dir, scales[j], k, m)) <= hi
    ensures lo <= ExpectedRow(e, m, scales)[j] <= hi
  {
    var runs: nat, total := e.runs, ScaleRuns(e, m, scales[j], e.runs);
    SumToBounds(RunValue(e, m, scales[j]), runs, lo, hi);
    assert (runs as real) * lo <= total <= (runs as real) * hi;
    MeanBounds(total, runs, lo, hi);
  }

  // Linearity: every number read `c` times larger.

  /**
   * With every number `c` times larger, the scan stops at the same line with
   * the same outcome, and a number it finds is `c` times larger.
   */
  lemma {:induction false} FirstReadingScaled(lines: seq<Line>, scaled: seq<Line>, c: real, workload: string)
    requires ScaledLines(lines, scaled, c)
    ensures FirstReading(scaled, workload).NoMatch? <==> FirstReading(lines, workload).NoMatch?
    ensures FirstReading(scaled, workload).Unreadable? <==> FirstReading(lines, workload).Unreadable?
    ensures FirstReading(lines, workload).Matched? ==>
      FirstReading(scaled, workload).value == c * FirstReading(lines, workload).value
    decreases |lines|
  {
    if lines != [] {
      assert scaled[0].marker == lines[0].marker;
      if lines[0].marker != Wanted(workload) {
        assert ScaledLines(lines[1..], scaled[1..], c) by {
          forall i | 0 <= i < |lines| - 1
            ensures scaled[1..][i].marker == lines[1..][i].marker
            ensures scaled[1..][i].reading.Some? <==> lines[1..][i].reading.Some?
            ensures lines[1..][i].reading.Some? ==> scaled[1..][i].reading.value == c * lines[1..][i].reading.value
          {
            assert scaled[1..][i] == scaled[i + 1] && lines[1..][i] == lines[i + 1];
          }
        }
        FirstReadingScaled(lines[1..], scaled[1..], c, workload);
      }
    }
  }

  /** The same for two contributions `t` and `u` known to be those of a matched scan. */
  lemma ContributionScaledAt(lines: seq<Line>, scaled: seq<Line>, c: real, t: real, u: real)
    requires ScaledLines(lines, scaled, c) && FirstReading(lines, Workload).Matched?
    requires t == Contribution(FirstReading(lines, Workload)) && u == Contribution(FirstReading(scaled, Workload))
    ensures u == c * t
  {
    FirstReadingScaled(lines, scaled, c, Workload);
  }

  /** With every number read `c` times larger, a file reads where it read and adds `c` times more. */
  lemma FileValueScaled(e: Experiment, scaled: Experiment, c: real, path: string)
    requires ScaledExperiment(e, scaled, c)
    ensures FileReads(scaled, path) <==> FileReads(e, path)
    ensures FileValue(scaled, path) == c * FileValue(e, path)
  {
    var t, u := FileValue(e, path), FileValue(scaled, path);
    if path in e.files {
      var data := e.files[path];
      var lines, larger := Views(data, e.parse), Views(data, scaled.parse);
      ViewsScaled(data, e.parse, scaled.parse, c);
      FirstReadingScaled(lines, larger, c, Workload);
      if FirstReading(lines, Workload).Matched? {
        ContributionScaledAt(lines, larger, c, t, u);
        return;
      }
    }
    assert t == 0.0 && u == 0.0;
    Rescaled(0.0, 0.0, c, t, u);
  }

  /** With every number read `c` times larger, every run's reading at a scale is `c` times larger. */
  lemma RunValuesScaled(e: Experiment, scaled: Experiment, c: real, m: string, scale: string)
    requires ScaledExperiment(e, scaled, c)
    ensures ScaledBy(RunValue(e, m, scale), RunValue(scaled, m, scale), c)
  {
    forall k: nat
      ensures RunValue(scaled, m, scale)(k) == c * RunValue(e, m, scale)(k)
    {
      FileValueScaled(e, scaled, c, InputPath(e.dir, scale, k, m));
    }
  }

  /** With every number read `c` times larger, a scale's total is `c` times larger. */
  lemma ScaleRunsScaled(e: Experiment, scaled: Experiment, c: real, m: string, scale: string, runs: int)
    requires ScaledExperiment(e, scaled, c)
    ensures ScaleRuns(scaled, m, scale, runs) == c * ScaleRuns(e, m, scale, runs)
  {
    RunValuesScaled(e, scaled, c, m, scale);
    SumToScaledAt(RunValue(e, m, scale), RunValue(scaled, m, scale), runs, c,
                  ScaleRuns(e, m, scale, runs), ScaleRuns(scaled, m, scale, runs));
  }

  /**
   * The table is linear in the readings: when every number in every file is
   * read `c` times larger, every averaged cell is `c` times larger.
   */
  lemma ExpectedRowScaled(e: Experiment, scaled: Experiment, c: real, m: string, scales: seq<string>)
    requires e.runs != 0 && ScaledExperiment(e, scaled, c)
    ensures forall j :: 0 <= j < |scales| ==> ExpectedRow(scaled, m, scales)[j] == c * ExpectedRow(e, m, scales)[j]
  {
    forall j | 0 <= j < |scales|
      ensures ExpectedRow(scaled, m, scales)[j] == c * ExpectedRow(e, m, scales)[j]
    {
      var r, x, y := e.runs as real, ScaleRuns(e, m, scales[j], e.runs), ScaleRuns(scaled, m, scales[j], e.runs);
      ScaleRunsScaled(e, scaled, c, m, scales[j], e.runs);
      DivScaled(x, y, r, c);
      Rescaled(x / r, y / r, c, ExpectedRow(e, m, scales)[j], ExpectedRow(scaled, m, scales)[j]);
    }
  }

  /** The table the script means to write, one averaged row per method. */
  function ExpectedTable(e: Experiment): (table: Report.Table)
    requires e.runs != 0
    ensures Report.Covers(Methods, table, |ScaleLabels|)
  {
    map m | m in Methods :: ExpectedRow(e, m, Scales)
  }

  /**
   * The whole script: read the `dynamic` argument, aggregate the grid of
   * files, then write the table with the header `scales,<methods>` and one
   * line per scale label to the file the argument selects; nothing is
   * written when a file is missing or unreadable or `runs` is 0.
   */
  method Execute(e: Experiment, arg: string, format: real -> string) returns (outcome: Outcome<OutputFile>)
    ensures outcome.Done? <==> GridReads(e, Methods, Scales) && e.runs != 0
    ensures outcome.Done? ==> (outcome.value.path == OutputPath(e.dir, DynamicArg(arg)) &&
      outcome.value.text == Report.Document("scales", ScaleLabels, Methods, ExpectedTable(e), format))
  {
    var dynamic := ReadDynamic(arg);
    var grid := AggregateAll(e, Methods, Scales);
    if grid.Failed? {
      return Failed(grid.failure);
    }
    assert grid.value == ExpectedTable(e);
    var text := Report.Render("scales", ScaleLabels, Methods, grid.value, format);
    var path;
    if dynamic {
      path := e.dir + "/ycsb_scalability_workload" + Workload + "_dynamic_exp.txt";
    } else {
      path := e.dir + "/ycsb_scalability_workload" + Workload + "_no_dynamic_exp.txt";
    }
    return Done(OutputFile(path, text));
  }
}
