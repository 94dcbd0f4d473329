/**
 * `merge_ycsb.py`: averages, per method, the load-phase throughput over all
 * workload files and the run-phase throughput of each workload over the
 * runs, and writes them as a table with one line per workload.
 */
module MergeYcsb {
  import opened Wrappers
  import opened PyStr
  import opened ResultFile
  import Report
  import opened Sums

  /** `workloads` as the script leaves it (its first assignment is overwritten); index 0 is the load phase. */
  const Workloads: seq<string> := ["load", "b"]
  const Methods: seq<string> := ["mnemosyne-plus", "mnemosyne", "default"]

  // ---------------------------------------------------------------------------
  // One result file: `aggregate`
  // ---------------------------------------------------------------------------

  /** What one file adds: its Load readings before the first Run line, and that Run line's reading if there is one. */
  datatype Tally = Tally(load: real, run: Option<real>)

  /** A Load reading `v` met before the rest of the file was scanned. */
  function AddLoad(v: real, rest: Option<Tally>): Option<Tally> {
    match rest
    case None => None
    case Some(t) => Some(t.(load := v + t.load))
  }

  /**
   * `aggregate` on the viewed lines of one file, line by line: a Load line
   * adds its reading and the scan goes on, the first Run line gives its
   * reading and ends the scan, any other line is skipped. `None` is the
   * `ValueError` of `float` on a marker line the scan reaches.
   */
  function Scan(lines: seq<Line>): Option<Tally>
    decreases |lines|
  {
    if lines == [] then Some(Tally(0.0, None))
    else match lines[0].marker
      case LoadMarker =>
        (match lines[0].reading
         case None => None
         case Some(v) => AddLoad(v, Scan(lines[1..])))
      case RunMarker =>
        (match lines[0].reading
         case None => None
         case Some(v) => Some(Tally(0.0, Some(v))))
      case NoMarker => Scan(lines[1..])
  }

  /** The list `result` after a file whose tally is `t` was added, with `index` the file's workload. */
  function Apply(row: seq<real>, index: nat, t: Tally): (after: seq<real>)
    ensures |after| == |row|
  {
    seq(|row|, s requires 0 <= s < |row| =>
      row[s] + (if s == 0 then t.load else 0.0) + (if s == index then t.run.GetOr(0.0) else 0.0))
  }

  /** One step of Scan from line `i`, case by case. */
  lemma ScanFrom(lines: seq<Line>, i: nat)
    requires i < |lines|
    ensures lines[i].marker == NoMarker ==> Scan(lines[i..]) == Scan(lines[i + 1..])
    ensures lines[i].marker != NoMarker && lines[i].reading.None? ==> Scan(lines[i..]) == None
    ensures lines[i].marker == LoadMarker && lines[i].reading.Some? ==>
      Scan(lines[i..]) == AddLoad(lines[i].reading.value, Scan(lines[i + 1..]))
    ensures lines[i].marker == RunMarker && lines[i].reading.Some? ==>
      Scan(lines[i..]) == Some(Tally(0.0, lines[i].reading))
  {
    assert lines[i..][0] == lines[i];
    assert lines[i..][1..] == lines[i + 1..];
  }

  /**
   * `aggregate(filename, result, workload_index)` on the lines of the file:
   * each stripped Load line adds its reading to `result[0]`; the first Run
   * line adds its reading to `result[workload_index]` and ends the scan.
   * `ok` is false when `float` raises; only slots 0 and `workloadIndex` ever
   * change.
   */
  method Aggregate(data: seq<string>, result: array<real>, workloadIndex: nat,
                   parse: string -> Option<real>) returns (ok: bool)
    requires workloadIndex < result.Length
    modifies result
    ensures ok <==> Scan(Views(data, parse)).Some?
    ensures ok ==> result[..] == Apply(old(result[..]), workloadIndex, Scan(Views(data, parse)).value)
    ensures forall s :: 0 <= s < result.Length && s != 0 && s != workloadIndex ==> result[s] == old(result[s])
  {
    ghost var before := result[..];
    ghost var views := Views(data, parse);
    ghost var acc := 0.0;
    assert views[0..] == views;
    var i := 0;
    while i < |data|
      invariant i <= |data|
      invariant result[0] == before[0] + acc
      invariant forall s :: 1 <= s < result.Length ==> result[s] == before[s]
      invariant Scan(views) == AddLoad(acc, Scan(views[i..]))
    {
      ScanFrom(views, i);
      var line := ReadLine(data, i, parse);
      if line.marker == LoadMarker {
        if line.reading.None? {
          return false;
        }
        AddLoadAdd(acc, line.reading.value, Scan(views[i + 1..]));
        result[0] := result[0] + line.reading.value;
        acc := acc + line.reading.value;
      } else if line.marker == RunMarker {
        if line.reading.None? {
          return false;
        }
        result[workloadIndex] := result[workloadIndex] + line.reading.value;
        ApplyPointwise(result[..], before, workloadIndex, Tally(acc + 0.0, line.reading));
        return true;
      }
      i := i + 1;
    }
    assert views[i..] == [];
    ApplyPointwise(result[..], before, workloadIndex, Tally(acc + 0.0, None));
    return true;
  }

  lemma AddLoadAdd(a: real, b: real, rest: Option<Tally>)
    ensures AddLoad(a, AddLoad(b, rest)) == AddLoad(a + b, rest)
  {
  }

  /** A row that received exactly the additions of `t` is `Apply`'s result. */
  lemma ApplyPointwise(after: seq<real>, before: seq<real>, index: nat, t: Tally)
    requires |after| == |before| && index < |before|
    requires after[0] == before[0] + t.load + (if index == 0 then t.run.GetOr(0.0) else 0.0)
    requires index != 0 ==> after[index] == before[index] + t.run.GetOr(0.0)
    requires forall s :: 1 <= s < |after| && s != index ==> after[s] == before[s]
    ensures after == Apply(before, index, t)
  {
  }

  // An independent, whole-file description of Scan.

  /** What a line adds to slot 0: its reading if it is a Load line, otherwise nothing. */
  function LoadValue(line: Line): real {
    if line.marker == LoadMarker then line.reading.GetOr(0.0) else 0.0
  }

  /** The sum of the Load readings of `lines`. */
  function LoadSum(lines: seq<Line>): real
    decreases |lines|
  {
    if lines == [] then 0.0 else LoadValue(lines[0]) + LoadSum(lines[1..])
  }

  /** Every marker line of `lines` has a number `float` accepts. */
  predicate ReadingsParse(lines: seq<Line>) {
    forall j :: 0 <= j < |lines| && lines[j].marker != NoMarker ==> lines[j].reading.Some?
  }

  /**
   * The effect of a file in one piece: it fails when a marker line up to and
   * including the first Run line has no number; otherwise it adds the Load
   * readings before the first Run line to slot 0 and that Run line's reading,
   * if there is one, to the workload's slot.
   */
  function Summary(lines: seq<Line>): Option<Tally> {
    var f := FirstMarker(lines, RunMarker);
    var reached := if f < |lines| then f + 1 else f;
    if !ReadingsParse(lines[..reached]) then None
    else Some(Tally(LoadSum(lines[..f]), if f < |lines| then lines[f].reading else None))
  }

  lemma ReadingsParseCons(x: Line, s: seq<Line>)
    ensures ReadingsParse([x] + s) <==> (x.marker != NoMarker ==> x.reading.Some?) && ReadingsParse(s)
  {
    assert ([x] + s)[0] == x;
    assert forall j :: 0 <= j < |s| ==> ([x] + s)[j + 1] == s[j];
    if ReadingsParse([x] + s) {
      forall j | 0 <= j < |s| && s[j].marker != NoMarker
        ensures s[j].reading.Some?
      {
        assert ([x] + s)[j + 1] == s[j];
      }
    }
    if ReadingsParse(s) && (x.marker != NoMarker ==> x.reading.Some?) {
      forall j | 0 <= j < |s| + 1 && ([x] + s)[j].marker != NoMarker
        ensures ([x] + s)[j].reading.Some?
      {
        if j > 0 {
          assert ([x] + s)[j] == s[j - 1];
        }
      }
    }
  }

  /** The line-by-line scan and the whole-file summary agree on every file. */
  lemma {:induction false} ScanSummary(lines: seq<Line>)
    ensures Scan(lines) == Summary(lines)
    decreases |lines|
  {
    if lines != [] {
      var x, rest := lines[0], lines[1..];
      assert lines == [x] + rest;
      if x.marker == RunMarker {
        assert lines[..1] == [x];
      } else {
        ScanSummary(rest);
        var g := FirstMarker(rest, RunMarker);
        var reached := if g < |rest| then g + 1 else g;
        assert lines[..g + 1] == [x] + rest[..g];
        assert lines[..reached + 1] == [x] + rest[..reached];
        ReadingsParseCons(x, rest[..reached]);
        assert ([x] + rest[..g])[1..] == rest[..g];
        assert g < |rest| ==> lines[g + 1] == rest[g];
      }
    }
  }

  /** Lines after the first Run line contribute nothing. */
  lemma {:induction false} ScanIgnoresAfterRun(lines: seq<Line>, extra: seq<Line>)
    requires FirstMarker(lines, RunMarker) < |lines|
    ensures Scan(lines + extra) == Scan(lines)
    decreases |lines|
  {
    if lines[0].marker != RunMarker {
      assert (lines + extra)[1..] == lines[1..] + extra;
      ScanIgnoresAfterRun(lines[1..], extra);
    }
  }

  /** A file with no marker line reads, and adds nothing. */
  lemma {:induction false} NoMarkersAddNothing(lines: seq<Line>)
    requires forall i :: 0 <= i < |lines| ==> lines[i].marker == NoMarker
    ensures Scan(lines) == Some(Tally(0.0, None))
    decreases |lines|
  {
    if lines != [] {
      NoMarkersAddNothing(lines[1..]);
    }
  }

  /** `aggregate` on a file none of whose stripped lines starts with a marker leaves `result` as it was. */
  lemma UnmarkedFileLeavesRow(data: seq<string>, parse: string -> Option<real>, row: seq<real>, index: nat)
    requires forall i :: 0 <= i < |data| ==> Classify(data[i]) == NoMarker
    ensures Scan(Views(data, parse)).Some?
    ensures Apply(row, index, Scan(Views(data, parse)).value) == row
  {
    var lines := Views(data, parse);
    forall i | 0 <= i < |lines| ensures lines[i].marker == NoMarker {
      assert lines[i] == View(data[i], parse);
    }
    NoMarkersAddNothing(lines);
    var nothing := Tally(0.0, None);
    assert nothing.run.GetOr(0.0) == 0.0;
    forall s | 0 <= s < |row| ensures Apply(row, index, nothing)[s] == row[s] {
    }
  }

  /** A file whose numbers are all `c` times larger fails where it failed, and tallies `c` times more. */
  lemma {:induction false} ScanScaled(lines: seq<Line>, scaled: seq<Line>, c: real)
    requires ScaledLines(lines, scaled, c)
    ensures Scan(scaled).Some? <==> Scan(lines).Some?
    ensures Scan(lines).Some? ==> Scan(scaled).value.load == c * Scan(lines).value.load
    ensures Scan(lines).Some? ==> Scan(scaled).value.run.GetOr(0.0) == c * Scan(lines).value.run.GetOr(0.0)
    decreases |lines|
  {
    if lines != [] {
      assert scaled[0].marker == lines[0].marker;
      assert ScaledLines(lines[1..], scaled[1..], c) by {
        forall i | 0 <= i < |lines| - 1
          ensures scaled[1..][i] == scaled[i + 1] && lines[1..][i] == lines[i + 1]
        {
        }
      }
      ScanScaled(lines[1..], scaled[1..], c);
      if lines[0].marker == LoadMarker && lines[0].reading.Some? && Scan(lines[1..]).Some? {
        var v, load := lines[0].reading.value, Scan(lines[1..]).value.load;
        assert c * v + c * load == c * (v + load);
      }
    }
  }

  // ---------------------------------------------------------------------------
  // Paths
  // ---------------------------------------------------------------------------

  /** `exp_dir + "/run" + str(k) + "/" + method + "_workload" + w + "_ycsb_result.txt"`. */
  function InputPath(dir: string, k: nat, m: string, w: string): string {
    dir + "/run" + Decimal(k) + "/" + m + "_workload" + w + "_ycsb_result.txt"
  }

  /** The output file `exp_dir + "/ycsb_agg_exp.txt"`. */
  function OutputPath(dir: string): string {
    dir + "/ycsb_agg_exp.txt"
  }

  /** The path read as the run directory's prefix, then the run number and the rest. */
  lemma InputPathAfterRun(dir: string, k: nat, m: string, w: string)
    ensures InputPath(dir, k, m, w) == (dir + "/run") + (Decimal(k) + "/" + (m + "_workload" + w + "_ycsb_result.txt"))
  {
  }

  /** Different runs read different files: the path gives back the run number. */
  lemma InputPathRun(dir: string, k1: nat, m1: string, w1: string, k2: nat, m2: string, w2: string)
    requires InputPath(dir, k1, m1, w1) == InputPath(dir, k2, m2, w2)
    ensures k1 == k2
  {
    var rest1, rest2 := m1 + "_workload" + w1 + "_ycsb_result.txt", m2 + "_workload" + w2 + "_ycsb_result.txt";
    InputPathAfterRun(dir, k1, m1, w1);
    InputPathAfterRun(dir, k2, m2, w2);
    CancelPrefix(dir + "/run", Decimal(k1) + "/" + rest1, Decimal(k2) + "/" + rest2);
    DecimalThenSlash(k1, rest1, k2, rest2);
  }

  /** For one run and method, different workloads read different files. */
  lemma InputPathWorkload(dir: string, k: nat, m: string, w1: string, w2: string)
    requires InputPath(dir, k, m, w1) == InputPath(dir, k, m, w2)
    ensures w1 == w2
  {
    CancelAround(dir + "/run" + Decimal(k) + "/" + m + "_workload", w1, w2, "_ycsb_result.txt");
  }

  /** The output file never overwrites an input file. */
  lemma OutputNotAnInput(dir: string, k: nat, m: string, w: string)
    ensures OutputPath(dir) != InputPath(dir, k, m, w)
  {
    var input := InputPath(dir, k, m, w);
    var output := OutputPath(dir);
    assert input[|input| - 16..] == "_ycsb_result.txt";
    assert output[|output| - 16..] == "ycsb_agg_exp.txt";
  }

  // ---------------------------------------------------------------------------
  // The grid: methods x workloads 1.. x runs 1..runs, then the divisions
  // ---------------------------------------------------------------------------

  /** The file exists and `aggregate` gets through it. */
  predicate FileReads(e: Experiment, path: string) {
    path in e.files && Scan(Views(e.files[path], e.parse)).Some?
  }

  /** What a file that reads adds (nothing for one that does not: the run stops there). */
  function FileTally(e: Experiment, path: string): Tally {
    if FileReads(e, path) then Scan(Views(e.files[path], e.parse)).value else Tally(0.0, None)
  }

  /** The load reading of run `k` of workload `w`. */
  function RunLoad(e: Experiment, m: string, w: string): nat -> real {
    (k: nat) => FileTally(e, InputPath(e.dir, k, m, w)).load
  }

  /** The run reading of run `k` of workload `w` (0.0 when its file has no Run line). */
  function RunReading(e: Experiment, m: string, w: string): nat -> real {
    (k: nat) => FileTally(e, InputPath(e.dir, k, m, w)).run.GetOr(0.0)
  }

  /** Load readings of workload `w` summed over runs 1..runs. */
  function LoadRuns(e: Experiment, m: string, w: string, runs: int): real {
    SumTo(RunLoad(e, m, w), runs)
  }

  /** Run readings of workload `w` summed over runs 1..runs. */
  function RunRuns(e: Experiment, m: string, w: string, runs: int): real {
    SumTo(RunReading(e, m, w), runs)
  }

  /** The load total of workload `j` over all runs (nothing outside the workloads). */
  function WorkloadLoad(e: Experiment, m: string, ws: seq<string>): nat -> real {
    (j: nat) => if j < |ws| then LoadRuns(e, m, ws[j], e.runs) else 0.0
  }

  /** Load readings summed over workloads 1..count-1 (category 0 is never read) and all runs. */
  function LoadWorkloads(e: Experiment, m: string, ws: seq<string>, count: nat): real
    requires count <= |ws|
  {
    SumTo(WorkloadLoad(e, m, ws), count - 1)
  }

  /** The files of runs 1..runs of workload `w` all exist and read. */
  predicate RunsRead(e: Experiment, m: string, w: string, runs: int)
    decreases runs
  {
    runs <= 0 || (RunsRead(e, m, w, runs - 1) && FileReads(e, InputPath(e.dir, runs, m, w)))
  }

  /** The files of workloads 1..count-1, over all runs, all exist and read. */
  predicate WorkloadsRead(e: Experiment, m: string, ws: seq<string>, count: nat)
    requires count <= |ws|
  {
    count <= 1 || (WorkloadsRead(e, m, ws, count - 1) && RunsRead(e, m, ws[count - 1], e.runs))
  }

  /** Every file of method `m` the loops open exists and reads. */
  predicate RowReads(e: Experiment, m: string, ws: seq<string>) {
    WorkloadsRead(e, m, ws, |ws|)
  }

  predicate GridReads(e: Experiment, methods: seq<string>, ws: seq<string>) {
    forall i :: 0 <= i < |methods| ==> RowReads(e, methods[i], ws)
  }

  lemma {:induction false} RunsReadFile(e: Experiment, m: string, w: string, runs: nat, k: nat)
    requires 1 <= k <= runs
    ensures RunsRead(e, m, w, runs) ==> FileReads(e, InputPath(e.dir, k, m, w))
    decreases runs
  {
    if k < runs {
      RunsReadFile(e, m, w, runs - 1, k);
    }
  }

  lemma {:induction false} WorkloadsReadFile(e: Experiment, m: string, ws: seq<string>, count: nat, j: nat, k: nat)
    requires count <= |ws| && 1 <= j < count && 1 <= k <= e.runs
    ensures WorkloadsRead(e, m, ws, count) ==> FileReads(e, InputPath(e.dir, k, m, ws[j]))
    decreases count
  {
    if j < count - 1 {
      WorkloadsReadFile(e, m, ws, count - 1, j, k);
    } else {
      RunsReadFile(e, m, ws[j], e.runs, k);
    }
  }

  lemma {:induction false} RunsReadAll(e: Experiment, m: string, w: string, runs: int)
    requires forall k :: 1 <= k <= runs ==> FileReads(e, InputPath(e.dir, k, m, w))
    ensures RunsRead(e, m, w, runs)
    decreases runs
  {
    if runs > 0 {
      RunsReadAll(e, m, w, runs - 1);
    }
  }

  lemma {:induction false} WorkloadsReadAll(e: Experiment, m: string, ws: seq<string>, count: nat)
    requires count <= |ws|
    requires forall j, k :: 1 <= j < count && 1 <= k <= e.runs ==> FileReads(e, InputPath(e.dir, k, m, ws[j]))
    ensures WorkloadsRead(e, m, ws, count)
    decreases count
  {
    if count > 1 {
      WorkloadsReadAll(e, m, ws, count - 1);
      RunsReadAll(e, m, ws[count - 1], e.runs);
    }
  }

  /** A method's row reads exactly when every one of its files exists and `aggregate` gets through it. */
  lemma RowReadsEveryFile(e: Experiment, m: string, ws: seq<string>)
    ensures RowReads(e, m, ws) <==>
      forall j, k :: 1 <= j < |ws| && 1 <= k <= e.runs ==> FileReads(e, InputPath(e.dir, k, m, ws[j]))
  {
    if RowReads(e, m, ws) {
      forall j, k | 1 <= j < |ws| && 1 <= k <= e.runs
        ensures FileReads(e, InputPath(e.dir, k, m, ws[j]))
      {
        WorkloadsReadFile(e, m, ws, |ws|, j, k);
      }
    }
    if forall j, k :: 1 <= j < |ws| && 1 <= k <= e.runs ==> FileReads(e, InputPath(e.dir, k, m, ws[j])) {
      WorkloadsReadAll(e, m, ws, |ws|);
    }
  }

  /** `p` is one of the files the loops open for method `m`. */
  ghost predicate IsInput(e: Experiment, m: string, ws: seq<string>, p: string) {
    exists j, k :: 1 <= j < |ws| && 1 <= k <= e.runs && p == InputPath(e.dir, k, m, ws[j])
  }

  /** The failure is really there: a file of method `m` that is missing or that `float` rejects. */
  ghost predicate Explains(e: Experiment, m: string, ws: seq<string>, failure: Failure) {
    match failure
    case MissingFile(p) => IsInput(e, m, ws, p) && p !in e.files
    case Unparsable(p) => IsInput(e, m, ws, p) && p in e.files && Scan(Views(e.files[p], e.parse)).None?
    case ZeroDivision => false
  }

  /** Slot 0 after the division: the load total over `runs * len(workloads)`. */
  function LoadSlot(e: Experiment, m: string, ws: seq<string>): real
    requires |ws| >= 1 && e.runs != 0
  {
    LoadWorkloads(e, m, ws, |ws|) / ((e.runs * |ws|) as real)
  }

  /** The slot of workload `w` after the division: its run total over `runs`. */
  function RunSlot(e: Experiment, m: string, w: string): real
    requires e.runs != 0
  {
    RunRuns(e, m, w, e.runs) / (e.runs as real)
  }

  /**
   * The averaged row of method `m`: slot 0 is the load total divided by
   * `runs * len(workloads)`, every other slot its run total divided by `runs`.
   */
  function ExpectedRow(e: Experiment, m: string, ws: seq<string>): (row: seq<real>)
    requires |ws| >= 1 && e.runs != 0
    ensures |row| == |ws|
  {
    seq(|ws|, j requires 0 <= j < |ws| => if j == 0 then LoadSlot(e, m, ws) else RunSlot(e, m, ws[j]))
  }

  /** A row holding the load slot and every workload's run slot is the expected row. */
  lemma RowIsExpected(e: Experiment, m: string, ws: seq<string>, row: seq<real>)
    requires |ws| >= 1 && e.runs != 0 && |row| == |ws|
    requires row[0] == LoadWorkloads(e, m, ws, |ws|) / ((e.runs * |ws|) as real)
    requires forall j :: 1 <= j < |ws| ==> row[j] == RunRuns(e, m, ws[j], e.runs) / (e.runs as real)
    ensures row == ExpectedRow(e, m, ws)
  {
  }

  /** A file of the grid that does not read explains the failure and spoils the row. */
  lemma FailedFileExplains(e: Experiment, m: string, ws: seq<string>, j: nat, k: nat)
    requires 1 <= j < |ws| && 1 <= k <= e.runs
    requires !FileReads(e, InputPath(e.dir, k, m, ws[j]))
    ensures !RunsRead(e, m, ws[j], e.runs) && !RowReads(e, m, ws)
    ensures Explains(e, m, ws, FileFailure(e, InputPath(e.dir, k, m, ws[j])))
  {
    WorkloadsReadFile(e, m, ws, |ws|, j, k);
    RunsReadFile(e, m, ws[j], e.runs, k);
    assert IsInput(e, m, ws, InputPath(e.dir, k, m, ws[j]));
  }

  /** Once the loop over runs is past `runs`, it has covered runs 1..runs (none when `runs <= 0`). */
  lemma RunsCovered(e: Experiment, m: string, w: string, k: int)
    requires 1 <= k && e.runs < k && (k <= e.runs + 1 || k == 1)
    ensures LoadRuns(e, m, w, k - 1) == LoadRuns(e, m, w, e.runs)
    ensures RunRuns(e, m, w, k - 1) == RunRuns(e, m, w, e.runs)
    ensures RunsRead(e, m, w, k - 1) == RunsRead(e, m, w, e.runs)
  {
  }

  /**
   * `aggregate(filename, result, j)` with the opening of the file: a missing
   * file or a number `float` rejects stops the run; otherwise the file's
   * tally is added to slots 0 and `j`.
   */
  method AggregateFile(e: Experiment, path: string, row: array<real>, j: nat) returns (failure: Option<Failure>)
    requires 1 <= j < row.Length
    modifies row
    ensures failure.None? <==> FileReads(e, path)
    ensures failure.Some? ==> failure.value == FileFailure(e, path)
    ensures failure.None? ==> row[0] == old(row[0]) + FileTally(e, path).load
    ensures failure.None? ==> row[j] == old(row[j]) + FileTally(e, path).run.GetOr(0.0)
    ensures forall s :: 1 <= s < row.Length && s != j ==> row[s] == old(row[s])
  {
    if path !in e.files {
      return Some(MissingFile(path));
    }
    var ok := Aggregate(e.files[path], row, j, e.parse);
    if !ok {
      return Some(Unparsable(path));
    }
    return None;
  }

  /**
   * The innermost loop: `aggregate` on the file of every run 1..runs of
   * workload `j`, stopping at the first file that is missing or that
   * `float` rejects.
   */
  method AddRuns(e: Experiment, m: string, ws: seq<string>, j: nat, row: array<real>) returns (failure: Option<Failure>)
    requires 1 <= j < |ws| && row.Length == |ws|
    modifies row
    ensures failure.None? <==> RunsRead(e, m, ws[j], e.runs)
    ensures failure.None? ==> row[0] == old(row[0]) + LoadRuns(e, m, ws[j], e.runs)
    ensures failure.None? ==> row[j] == old(row[j]) + RunRuns(e, m, ws[j], e.runs)
    ensures forall s :: 1 <= s < row.Length && s != j ==> row[s] == old(row[s])
    ensures failure.Some? ==> !RowReads(e, m, ws) && Explains(e, m, ws, failure.value)
  {
    var k := 1;
    while k <= e.runs
      invariant 1 <= k && (k <= e.runs + 1 || k == 1)
      invariant row[0] == old(row[0]) + LoadRuns(e, m, ws[j], k - 1)
      invariant row[j] == old(row[j]) + RunRuns(e, m, ws[j], k - 1)
      invariant forall s :: 1 <= s < row.Length && s != j ==> row[s] == old(row[s])
      invariant RunsRead(e, m, ws[j], k - 1)
    {
      var path := InputPath(e.dir, k, m, ws[j]);
      failure := AggregateFile(e, path, row, j);
      if failure.Some? {
        FailedFileExplains(e, m, ws, j, k);
        return;
      }
      k := k + 1;
    }
    RunsCovered(e, m, ws[j], k);
    return None;
  }

  /**
   * The loops for one method: `[0 for _ in workloads]`, then the files of
   * workloads 1.. in turn, stopping at the first file that is missing or
   * that `float` rejects.
   */
  method FillRow(e: Experiment, m: string, ws: seq<string>) returns (row: array<real>, failure: Option<Failure>)
    requires |ws| >= 1
    ensures fresh(row) && row.Length == |ws|
    ensures failure.None? <==> RowReads(e, m, ws)
    ensures failure.None? ==> row[0] == LoadWorkloads(e, m, ws, |ws|)
    ensures failure.None? ==> forall j :: 1 <= j < |ws| ==> row[j] == RunRuns(e, m, ws[j], e.runs)
    ensures failure.Some? ==> Explains(e, m, ws, failure.value)
  {
    row := new real[|ws|](_ => 0.0);
    for j := 1 to |ws|
      invariant row[0] == LoadWorkloads(e, m, ws, j)
      invariant forall j' :: 1 <= j' < j ==> row[j'] == RunRuns(e, m, ws[j'], e.runs)
      invariant forall j' :: j <= j' < |ws| ==> row[j'] == 0.0
      invariant WorkloadsRead(e, m, ws, j)
    {
      failure := AddRuns(e, m, ws, j, row);
      if failure.Some? {
        return;
      }
    }
    failure := None;
  }

  /**
   * The divisions after the loops: `result[0] /= runs*len(workloads)*1.0`,
   * then `result[j] /= runs*1.0` for every other slot.
   */
  method Normalize(row: array<real>, runs: int)
    requires runs != 0 && row.Length >= 1
    modifies row
    ensures row[0] == old(row[0]) / ((runs * row.Length) as real)
    ensures forall j :: 1 <= j < row.Length ==> row[j] == old(row[j]) / (runs as real)
  {
    row[0] := row[0] / ((runs * row.Length) as real);
    for j := 1 to row.Length
      invariant row[0] == old(row[0]) / ((runs * row.Length) as real)
      invariant forall j' :: 1 <= j' < j ==> row[j'] == old(row[j']) / (runs as real)
      invariant forall j' :: j <= j' < row.Length ==> row[j'] == old(row[j'])
    {
      row[j] := row[j] / (runs as real);
    }
  }

  /**
   * The main loop over methods: each method's row is filled and divided in
   * turn; the run stops at the first missing or unreadable file, or at the
   * first division when `runs` is 0.
   */
  method AggregateAll(e: Experiment, methods: seq<string>, ws: seq<string>) returns (outcome: Outcome<Report.Table>)
    requires |ws| >= 1
    ensures outcome.Done? <==> GridReads(e, methods, ws) && (e.runs != 0 || methods == [])
    ensures outcome.Done? ==> outcome.value.Keys == set m | m in methods
    ensures outcome.Done? ==> forall m :: m in methods ==>
      e.runs != 0 && m in outcome.value && outcome.value[m] == ExpectedRow(e, m, ws)
    ensures outcome.Failed? ==>
      (outcome.failure == ZeroDivision && e.runs == 0) ||
      exists i :: 0 <= i < |methods| && Explains(e, methods[i], ws, outcome.failure)
  {
    var table: Report.Table := map[];
    for i := 0 to |methods|
      invariant table.Keys == set m | m in methods[..i]
      invariant forall m :: m in table ==> e.runs != 0 && table[m] == ExpectedRow(e, m, ws)
      invariant forall n :: 0 <= n < i ==> RowReads(e, methods[n], ws)
      invariant i > 0 ==> e.runs != 0
    {
      var row, failure := FillRow(e, methods[i], ws);
      if failure.Some? {
        return Failed(failure.value);
      }
      if e.runs == 0 {
        return Failed(ZeroDivision);
      }
      Normalize(row, e.runs);
      RowIsExpected(e, methods[i], ws, row[..]);
      assert methods[..i + 1] == methods[..i] + [methods[i]];
      table := table[methods[i] := row[..]];
    }
    assert methods[..|methods|] == methods;
    return Done(table);
  }

  // What the averages mean.

  /**
   * The load slot is divided by `runs * len(workloads)` although only
   * `len(workloads) - 1` workloads are read: when every file's Load
   * readings (those before its first Run line) total `v`, the written load
   * figure is `v * (n - 1) / n` for `n` categories, not `v`.
   */
  lemma LoadSlotOfUniformLoad(e: Experiment, m: string, ws: seq<string>, v: real)
    requires |ws| >= 1 && e.runs >= 1
    requires forall j, k :: 1 <= j < |ws| && 1 <= k <= e.runs ==> FileTally(e, InputPath(e.dir, k, m, ws[j])).load == v
    ensures ExpectedRow(e, m, ws)[0] == v * ((|ws| - 1) as real) / (|ws| as real)
  {
    var runs: nat := e.runs;
    forall j: nat | 1 <= j <= |ws| - 1
      ensures WorkloadLoad(e, m, ws)(j) == (e.runs as real) * v
    {
      SumToConstant(RunLoad(e, m, ws[j]), runs, v);
    }
    LoadSlotOfUniformWorkloads(e, m, ws, v);
  }

  /** The load slot when every workload read contributes the same total `runs * v`. */
  lemma LoadSlotOfUniformWorkloads(e: Experiment, m: string, ws: seq<string>, v: real)
    requires |ws| >= 1 && e.runs >= 1
    ensures Uniform(WorkloadLoad(e, m, ws), |ws| - 1, (e.runs as real) * v) ==>
      LoadSlot(e, m, ws) == v * ((|ws| - 1) as real) / (|ws| as real)
  {
    ShareOfSum(WorkloadLoad(e, m, ws), |ws|, e.runs, v);
  }


  /**
   * A workload's slot is the mean of its runs' Run readings: it lies
   * between the smallest and the largest of them.
   */
  lemma RunSlotIsMean(e: Experiment, m: string, ws: seq<string>, j: nat, lo: real, hi: real)
    requires |ws| >= 1 && e.runs >= 1 && 1 <= j < |ws|
    requires forall k :: 1 <= k <= e.runs ==> lo <= FileTally(e, InputPath(e.dir, k, m, ws[j])).run.GetOr(0.0) <= hi
    ensures lo <= ExpectedRow(e, m, ws)[j] <= hi
  {
    var runs: nat, total := e.runs, RunRuns(e, m, ws[j], e.runs);
    SumToBounds(RunReading(e, m, ws[j]), runs, lo, hi);
    assert (runs as real) * lo <= total <= (runs as real) * hi;
    MeanBounds(total, runs, lo, hi);
  }

  /** The same for two tallies `t` and `u` known to be those scans. */
  lemma ScanScaledAt(lines: seq<Line>, scaled: seq<Line>, c: real, t: Tally, u: Tally)
    requires ScaledLines(lines, scaled, c)
    requires Scan(lines).Some? && Scan(scaled).Some? && t == Scan(lines).value && u == Scan(scaled).value
    ensures u.load == c * t.load && u.run.GetOr(0.0) == c * t.run.GetOr(0.0)
  {
    ScanScaled(lines, scaled, c);
  }

  /** With every number read `c` times larger, a file reads where it read and tallies `c` times more. */
  lemma FileTallyScaled(e: Experiment, scaled: Experiment, c: real, path: string)
    requires ScaledExperiment(e, scaled, c)
    ensures FileReads(scaled, path) <==> FileReads(e, path)
    ensures FileTally(scaled, path).load == c * FileTally(e, path).load
    ensures FileTally(scaled, path).run.GetOr(0.0) == c * FileTally(e, path).run.GetOr(0.0)
  {
    var t, u := FileTally(e, path), FileTally(scaled, path);
    if path in e.files {
      var data := e.files[path];
      var lines, larger := Views(data, e.parse), Views(data, scaled.parse);
      ViewsScaled(data, e.parse, scaled.parse, c);
      ScanScaled(lines, larger, c);
      if FileReads(e, path) {
        ScanScaledAt(lines, larger, c, t, u);
        return;
      }
    }
    assert t == Tally(0.0, None) && u == Tally(0.0, None);
    Rescaled(0.0, 0.0, c, t.load, u.load);
    Rescaled(0.0, 0.0, c, t.run.GetOr(0.0), u.run.GetOr(0.0));
  }

  /** Every run's file of `scaled` tallies `c` times what the same file of `e` tallies. */
  ghost predicate TalliesScaled(e: Experiment, scaled: Experiment, c: real) {
    scaled.runs == e.runs &&
    forall m, w :: ScaledBy(RunLoad(e, m, w), RunLoad(scaled, m, w), c) &&
      ScaledBy(RunReading(e, m, w), RunReading(scaled, m, w), c)
  }

  lemma AllTalliesScaled(e: Experiment, scaled: Experiment, c: real)
    requires ScaledExperiment(e, scaled, c)
    ensures TalliesScaled(e, scaled, c)
  {
    forall m, w
      ensures ScaledBy(RunLoad(e, m, w), RunLoad(scaled, m, w), c)
      ensures ScaledBy(RunReading(e, m, w), RunReading(scaled, m, w), c)
    {
      forall k: nat
        ensures RunLoad(scaled, m, w)(k) == c * RunLoad(e, m, w)(k)
        ensures RunReading(scaled, m, w)(k) == c * RunReading(e, m, w)(k)
      {
        FileTallyScaled(e, scaled, c, InputPath(e.dir, k, m, w));
      }
    }
  }

  /** With every file tallying `c` times more, a workload's load total is `c` times larger. */
  lemma LoadRunsScaled(e: Experiment, scaled: Experiment, c: real, m: string, w: string, runs: int)
    requires TalliesScaled(e, scaled, c)
    ensures LoadRuns(scaled, m, w, runs) == c * LoadRuns(e, m, w, runs)
  {
    SumToScaledAt(RunLoad(e, m, w), RunLoad(scaled, m, w), runs, c, LoadRuns(e, m, w, runs), LoadRuns(scaled, m, w, runs));
  }

  /** With every file tallying `c` times more, a workload's run total is `c` times larger. */
  lemma RunRunsScaled(e: Experiment, scaled: Experiment, c: real, m: string, w: string, runs: int)
    requires TalliesScaled(e, scaled, c)
    ensures RunRuns(scaled, m, w, runs) == c * RunRuns(e, m, w, runs)
  {
    SumToScaledAt(RunReading(e, m, w), RunReading(scaled, m, w), runs, c, RunRuns(e, m, w, runs), RunRuns(scaled, m, w, runs));
  }

  /** With every file tallying `c` times more, every workload's load total is `c` times larger. */
  lemma WorkloadLoadScaled(e: Experiment, scaled: Experiment, c: real, m: string, ws: seq<string>)
    requires TalliesScaled(e, scaled, c)
    ensures ScaledBy(WorkloadLoad(e, m, ws), WorkloadLoad(scaled, m, ws), c)
  {
    forall j: nat
      ensures WorkloadLoad(scaled, m, ws)(j) == c * WorkloadLoad(e, m, ws)(j)
    {
      if j < |ws| {
        LoadRunsScaled(e, scaled, c, m, ws[j], e.runs);
        Rescaled(LoadRuns(e, m, ws[j], e.runs), LoadRuns(scaled, m, ws[j], e.runs), c,
                 WorkloadLoad(e, m, ws)(j), WorkloadLoad(scaled, m, ws)(j));
      } else {
        Rescaled(0.0, 0.0, c, WorkloadLoad(e, m, ws)(j), WorkloadLoad(scaled, m, ws)(j));
      }
    }
  }

  /** With every file tallying `c` times more, every averaged cell is `c` times larger. */
  lemma RowScaled(e: Experiment, scaled: Experiment, c: real, m: string, ws: seq<string>)
    requires |ws| >= 1 && e.runs != 0 && TalliesScaled(e, scaled, c)
    ensures forall j :: 0 <= j < |ws| ==> ExpectedRow(scaled, m, ws)[j] == c * ExpectedRow(e, m, ws)[j]
  {
    LoadSlotScaled(e, scaled, c, m, ws);
    forall j | 0 <= j < |ws|
      ensures ExpectedRow(scaled, m, ws)[j] == c * ExpectedRow(e, m, ws)[j]
    {
      if j == 0 {
        Rescaled(LoadSlot(e, m, ws), LoadSlot(scaled, m, ws), c, ExpectedRow(e, m, ws)[0], ExpectedRow(scaled, m, ws)[0]);
      } else {
        RunSlotScaled(e, scaled, c, m, ws[j]);
        Rescaled(RunSlot(e, m, ws[j]), RunSlot(scaled, m, ws[j]), c, ExpectedRow(e, m, ws)[j], ExpectedRow(scaled, m, ws)[j]);
      }
    }
  }

  /** With every file tallying `c` times more, a workload's run slot is `c` times larger. */
  lemma RunSlotScaled(e: Experiment, scaled: Experiment, c: real, m: string, w: string)
    requires e.runs != 0 && TalliesScaled(e, scaled, c)
    ensures RunSlot(scaled, m, w) == c * RunSlot(e, m, w)
  {
    var r, x, y := e.runs as real, RunRuns(e, m, w, e.runs), RunRuns(scaled, m, w, e.runs);
    RunRunsScaled(e, scaled, c, m, w, e.runs);
    DivScaled(x, y, r, c);
    Rescaled(x / r, y / r, c, RunSlot(e, m, w), RunSlot(scaled, m, w));
  }

  /** With every file tallying `c` times more, the load slot is `c` times larger. */
  lemma LoadSlotScaled(e: Experiment, scaled: Experiment, c: real, m: string, ws: seq<string>)
    requires |ws| >= 1 && e.runs != 0 && TalliesScaled(e, scaled, c)
    ensures LoadSlot(scaled, m, ws) == c * LoadSlot(e, m, ws)
  {
    WorkloadLoadScaled(e, scaled, c, m, ws);
    var x, y, d := LoadWorkloads(e, m, ws, |ws|), LoadWorkloads(scaled, m, ws, |ws|), (e.runs * |ws|) as real;
    SumToScaledAt(WorkloadLoad(e, m, ws), WorkloadLoad(scaled, m, ws), |ws| - 1, c, x, y);
    DivScaled(x, y, d, c);
    Rescaled(x / d, y / d, c, LoadSlot(e, m, ws), LoadSlot(scaled, m, ws));
  }

  /**
   * The table is linear in the readings: when every number in every file is
   * read `c` times larger, every averaged cell is `c` times larger.
   */
  lemma ExpectedRowScaled(e: Experiment, scaled: Experiment, c: real, m: string, ws: seq<string>)
    requires |ws| >= 1 && e.runs != 0 && ScaledExperiment(e, scaled, c)
    ensures forall j :: 0 <= j < |ws| ==> ExpectedRow(scaled, m, ws)[j] == c * ExpectedRow(e, m, ws)[j]
  {
    AllTalliesScaled(e, scaled, c);
    RowScaled(e, scaled, c, m, ws);
  }

  /** The table the script means to write, one averaged row per method. */
  function ExpectedTable(e: Experiment): (table: Report.Table)
    requires e.runs != 0
    ensures Report.Covers(Methods, table, |Workloads|)
  {
    map m | m in Methods :: ExpectedRow(e, m, Workloads)
  }

  /**
   * The whole script: aggregate the grid of files, then write the table to
   * `exp_dir + "/ycsb_agg_exp.txt"` with the header `workloads,<methods>`
   * and one line per workload; nothing is written when a file is missing
   * or unreadable or `runs` is 0.
   */
  method Execute(e: Experiment, format: real -> string) returns (outcome: Outcome<OutputFile>)
    ensures outcome.Done? <==> GridReads(e, Methods, Workloads) && e.runs != 0
    ensures outcome.Done? ==> (outcome.value.path == OutputPath(e.dir) &&
      outcome.value.text == Report.Document("workloads", Workloads, Methods, ExpectedTable(e), format))
  {
    var grid := AggregateAll(e, Methods, Workloads);
    if grid.Failed? {
      return Failed(grid.failure);
    }
    assert grid.value == ExpectedTable(e);
    var text := Report.Render("workloads", Workloads, Methods, grid.value, format);
    return Done(OutputFile(OutputPath(e.dir), text));
  }
}
