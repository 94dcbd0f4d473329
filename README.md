# YCSB result aggregation, modelled in Dafny

Two Python scripts post-process the YCSB benchmark runs of three persistence
methods (`mnemosyne-plus`, `mnemosyne`, `default`):

- `merge_ycsb.py` reads `<exp_dir>/run<k>/<method>_workload<w>_ycsb_result.txt`
  for workload `b` and runs `1..runs`. Its scanner `aggregate` adds every
  `Load throughput` reading that comes before the first `Run throughput`
  line to slot 0 of the method's row. It adds that Run reading to the
  workload's slot and stops the scan. Slot 0 is then divided by
  `runs * len(workloads)` and every other slot by `runs`. The table goes to
  `<exp_dir>/ycsb_agg_exp.txt`.
- `merge_ycsb_large.py` reads `<exp_dir>/<scale>/run<k>/<method>_workloadb_ycsb_result.txt`
  for five scales. Its scanner takes only the first line of the phase the
  workload names: `Run throughput`, since the workload is `b`. Every slot is
  divided by `runs`. The table goes to a file whose name ends in
  `_dynamic_exp.txt` or `_no_dynamic_exp.txt`, chosen by the third argument.

The project has seven modules:

- `Wrappers` holds `Option`.
- `PyStr` holds the Python string built-ins the scripts use: `strip`,
  `startswith`, `split(':')[-1]`, the comma joining, and `str(k)`.
- `Sums` holds sums over runs `1..n` and their means.
- `ResultFile` holds marker classification, the number after the last
  colon, and the experiment, failure and output types.
- `Report` holds the shared `output` function.
- `MergeYcsb` models `merge_ycsb.py`.
- `MergeYcsbLarge` models `merge_ycsb_large.py`.

The loops are imperative Dafny:

- `aggregate` is a `while` loop over the lines.
- It updates an `array<real>` row in place.
- The grid is nested loops over methods, categories and runs.
- `output` builds each line with a `+=` loop.

Each loop is proved against a specification function: `Scan` or
`FirstReading` for a file, and `ExpectedRow` for a method's averaged row.
`Document` specifies the written text.

A run either writes its output or stops with a `Failure`:

- a missing file (`open` raises);
- a number that `float` rejects;
- a division by zero when `runs` is 0 and there is at least one method.

Suppose every file's `Load throughput` readings total `v`: the Load lines
before the first Run line add up to `v` in each file. Then `merge_ycsb.py`
writes `v * (n - 1) / n` for `n` categories, not `v`. The reason is that it
divides the load slot by `runs * len(workloads)` while only
`len(workloads) - 1` categories are read. `MergeYcsb.LoadSlotOfUniformLoad`
states this. The model keeps the division as written.

Both tables are linear in the readings. If `float` read every number `c`
times larger, every file would fail or succeed as before, and every averaged
cell would be `c` times larger (`MergeYcsb.ExpectedRowScaled`,
`MergeYcsbLarge.ExpectedRowScaled`).

## Model

| member | source | states |
|---|---|---|
| PyStr.TrimStartSpec | merge_ycsb.py:15 | `lstrip` gives a suffix of the line; everything it removes is whitespace (the `str.isspace` set), and the result does not start with whitespace |
| PyStr.TrimEndSpec | merge_ycsb.py:15 | `rstrip` gives a prefix of the line; everything it removes is whitespace, and the result does not end with whitespace |
| PyStr.StripSpec | merge_ycsb.py:15 | `strip()` gives the slice left when the whitespace at both ends is gone; everything around the slice is whitespace, and the slice starts and ends with non-whitespace |
| PyStr.StripSurrounded | merge_ycsb.py:15 | stripping `pre + core + post` with all-whitespace `pre`/`post` and a trimmed `core` gives exactly `core` |
| PyStr.StripIgnoresTrailingSpace | merge_ycsb.py:17 | whitespace appended to a string does not change its `strip()` |
| PyStr.StripIgnoresPadding | merge_ycsb.py:15 | whitespace added at either end of a string does not change its `strip()` |
| PyStr.StripKeepsColon | merge_ycsb.py:15-17 | stripping a line that holds a colon keeps the colon; the text after it loses only trailing whitespace |
| PyStr.SplitParts | merge_ycsb.py:17 | no part of `s.split(sep)` contains `sep` |
| PyStr.JoinSplit | merge_ycsb.py:17 | joining the parts of `s.split(sep)` with `sep` gives back `s` |
| PyStr.SplitJoin | merge_ycsb.py:17 | splitting a join of separator-free parts gives back the parts |
| PyStr.AfterLastColonSpec | merge_ycsb.py:17 | `split(':')[-1]` is a colon-free suffix of the line; it is either the whole line or comes right after a colon |
| PyStr.AfterLastColonOf | merge_ycsb.py:17 | `(x + ":" + y).split(':')[-1] == y` for colon-free `y` |
| PyStr.JoinSnoc | merge_ycsb.py:25-26 | appending `"," + m` to a joined line gives the join with one more field |
| PyStr.SuccValue | merge_ycsb.py:43 | counting up a decimal string adds one to the number it denotes |
| PyStr.SuccLead | merge_ycsb.py:43 | counting up never introduces a leading zero |
| PyStr.DecimalDigits | merge_ycsb.py:43 | `str(k)` is a non-empty string of digits; it has no leading zero unless `k` is 0, and it denotes `k` |
| PyStr.DecimalInjective | merge_ycsb.py:43 | different run numbers have different `str(k)` |
| PyStr.DecimalThenSlash | merge_ycsb.py:43 | `str(k) + "/" + rest` gives back both `k` and `rest` |
| Sums.SumToConstant | merge_ycsb.py:42-43 | `n` readings all equal to `v` sum to `n * v` |
| Sums.SumToBounds | merge_ycsb.py:42-43 | `n` readings between `lo` and `hi` sum to between `n * lo` and `n * hi` |
| Sums.SumToScaled | merge_ycsb.py:42-43 | readings each `c` times larger sum to `c` times the sum |
| Sums.ShareOfSum | merge_ycsb.py:41-44 | when `n - 1` group totals each equal `runs * v`, their sum divided by `runs * n` is `v * (n - 1) / n` |
| ResultFile.ReadingAfterColon | merge_ycsb.py:15-17 | the number of a marker line is `float` of the stripped text after its last colon, whatever precedes that colon and whatever whitespace surrounds the line |
| ResultFile.ViewIgnoresPadding | merge_ycsb.py:15-17 | whitespace around a line changes neither its marker nor its number, because `strip()` comes before the prefix tests and the parse |
| ResultFile.ViewsScaled | merge_ycsb.py:15-17 | when `float` rejects the same texts and reads every other text `c` times larger, every line keeps its marker, keeps or lacks its number as before, and its number is `c` times larger |
| ResultFile.FirstMarker | merge_ycsb.py:18-20 | the index of the first line with a given marker, or the line count; no earlier line has that marker |
| ResultFile.FirstMarkerAppend | merge_ycsb.py:18-20 | lines appended after the first marker line do not move it |
| Report.BuildLine | merge_ycsb.py:30-33 | the `+= "," + x` loop followed by `+= "\n"` builds the comma-joined line ending in a newline |
| Report.Render | merge_ycsb.py:22-35 | the written text is the header line followed by one line per category, in order (`Document`) |
| Report.SplitConcatLines | merge_ycsb.py:28-34 | newline-terminated lines split back on `\n` into those lines plus an empty tail |
| Report.CsvRoundTrip | merge_ycsb.py:24-34 | comma-joined, newline-terminated rows of plain fields read back as the rows |
| Report.DocumentIsTable | merge_ycsb.py:22-35 | if no name, label or formatted cell holds a comma or a newline, the output splits into exactly the header and one line per category, each with its fields |
| MergeYcsb.Aggregate | merge_ycsb.py:10-20 | the loop succeeds exactly when `Scan` of the file's lines does; the row is then the old row with the tally added (Load readings to slot 0, the first Run reading to `workload_index`); no slot other than 0 and `workload_index` ever changes |
| MergeYcsb.ScanSummary | merge_ycsb.py:14-20 | the line-by-line scan equals a whole-file summary: it fails iff a marker line up to and including the first Run line has no number; otherwise it gives the sum of Load readings before the first Run line and that Run line's number |
| MergeYcsb.ScanIgnoresAfterRun | merge_ycsb.py:18-20 | lines after the first Run line contribute nothing |
| MergeYcsb.NoMarkersAddNothing | merge_ycsb.py:14-20 | lines none of which carries a marker scan successfully to an empty tally: no Load total and no Run reading |
| MergeYcsb.UnmarkedFileLeavesRow | merge_ycsb.py:10-20 | a file with no `Load throughput` or `Run throughput` line scans successfully and leaves every slot of the row as it was |
| MergeYcsb.ScanScaled | merge_ycsb.py:14-20 | with every number `c` times larger, the scan fails on the same lines, and its Load total and Run reading are `c` times larger |
| MergeYcsb.FileTallyScaled | merge_ycsb.py:10-20 | with every number read `c` times larger, a file reads exactly when it did, and its Load total and Run reading are `c` times larger |
| MergeYcsb.InputPathRun | merge_ycsb.py:43 | the path determines the run number: different runs open different files |
| MergeYcsb.InputPathWorkload | merge_ycsb.py:43 | for one run and method, different workloads open different files |
| MergeYcsb.OutputNotAnInput | merge_ycsb.py:48 | the output file is never one of the input files |
| MergeYcsb.RowReadsEveryFile | merge_ycsb.py:41-43 | a method's row reads iff every file for workloads `1..len-1` and runs `1..runs` exists and scans (workload 0 is never opened) |
| MergeYcsb.FailedFileExplains | merge_ycsb.py:41-43 | a grid file that is missing or unreadable spoils its row, and the failure it raises names that file |
| MergeYcsb.AggregateFile | merge_ycsb.py:10-20 | open-and-scan succeeds iff the file exists and scans; otherwise it fails with `MissingFile` when absent, else `Unparsable`; on success slot 0 and slot `j` grow by the file's tally |
| MergeYcsb.AddRuns | merge_ycsb.py:42-43 | the runs loop succeeds iff all its files read; slot 0 and slot `j` grow by the load and run sums over runs `1..runs`; no other slot changes; on failure the row cannot read and the failure names a real failing file |
| MergeYcsb.FillRow | merge_ycsb.py:40-43 | a fresh row starting at zeros gets the load sum over workloads `1..` in slot 0 and each workload's run sum in its slot, iff all files read |
| MergeYcsb.Normalize | merge_ycsb.py:44-46 | slot 0 is divided by `runs * len(workloads)` and every other slot by `runs` |
| MergeYcsb.AggregateAll | merge_ycsb.py:38-46 | the table is produced iff every method's files read and either `runs != 0` or there are no methods; it holds exactly one averaged row (`ExpectedRow`) per method; otherwise it fails with a division by zero (`runs == 0`) or a failure that a method's file explains |
| MergeYcsb.LoadSlotOfUniformLoad | merge_ycsb.py:41-44 | if every file's `Load throughput` readings total `v`, the load slot is `v * (n - 1) / n`, not `v` |
| MergeYcsb.LoadSlotOfUniformWorkloads | merge_ycsb.py:44 | if each workload's load total is `runs * v`, the load slot is `v * (n - 1) / n` |
| MergeYcsb.RunSlotIsMean | merge_ycsb.py:42-46 | if every run's Run reading for a workload lies between `lo` and `hi`, so does the averaged slot |
| MergeYcsb.ExpectedRowScaled | merge_ycsb.py:38-46 | when every number in every file is read `c` times larger, every cell of every averaged row is `c` times larger |
| MergeYcsb.Execute | merge_ycsb.py:38-48 | the output file is written iff all files read and `runs != 0`; its name is `exp_dir + "/ycsb_agg_exp.txt"` and its text is the `workloads,<methods>` table of the averaged rows |
| MergeYcsbLarge.ReadDynamic | merge_ycsb_large.py:5-7 | `dynamic` is true exactly when the argument is `"True"` or `"true"` |
| MergeYcsbLarge.OutputPathDynamic | merge_ycsb_large.py:51-54 | the output name ends in `_no_dynamic_exp.txt` iff `dynamic` is off; both names end in `_dynamic_exp.txt`, and the two settings never name the same file |
| MergeYcsbLarge.FirstReadingAtFirstMarker | merge_ycsb_large.py:17-24 | the scan decides at the first line with the wanted marker, or finds nothing when there is none |
| MergeYcsbLarge.FirstReadingSpec | merge_ycsb_large.py:17-24 | a file yields nothing iff no line has the wanted marker; a number it yields is reported by some line with that marker |
| MergeYcsbLarge.LoadLinesNeverCount | merge_ycsb_large.py:19-21 | with the workload fixed at `"b"`, replacing a `Load throughput` line by any non-Run line changes nothing |
| MergeYcsbLarge.IgnoresAfterMatch | merge_ycsb_large.py:20-24 | at most one line counts: lines after the first matching line change nothing |
| MergeYcsbLarge.FirstReadingScaled | merge_ycsb_large.py:17-24 | with every number `c` times larger, the scan finds nothing, or fails, exactly when it did, and a number it finds is `c` times larger |
| MergeYcsbLarge.FileValueScaled | merge_ycsb_large.py:13-24 | with every number read `c` times larger, a file reads exactly when it did and adds `c` times as much to its slot |
| MergeYcsbLarge.Aggregate | merge_ycsb_large.py:13-24 | the loop succeeds unless the first matching line's number is rejected; it then adds that number (or nothing) to `result[scale_index]`; no other slot ever changes |
| MergeYcsbLarge.InputPathRun | merge_ycsb_large.py:47 | within one scale directory, the path determines the run number and the method |
| MergeYcsbLarge.OutputNotAnInput | merge_ycsb_large.py:47-54 | neither output file is ever an input file |
| MergeYcsbLarge.RowReadsEveryFile | merge_ycsb_large.py:45-47 | a method's row reads iff every file for every scale and runs `1..runs` exists and scans |
| MergeYcsbLarge.FailedFileExplains | merge_ycsb_large.py:45-47 | a grid file that is missing or unreadable spoils its row, and the failure names that file |
| MergeYcsbLarge.AggregateFile | merge_ycsb_large.py:13-24 | open-and-scan succeeds iff the file exists and scans; otherwise it fails with `MissingFile` when absent, else `Unparsable`; on success only slot `j` grows, by the file's number |
| MergeYcsbLarge.AddRuns | merge_ycsb_large.py:46-47 | the runs loop succeeds iff all its files read; slot `j` grows by the sum over runs `1..runs`; no other slot changes; on failure the failure names a real failing file |
| MergeYcsbLarge.FillRow | merge_ycsb_large.py:44-47 | a fresh zero row gets each scale's run sum in its slot, iff all files read |
| MergeYcsbLarge.Normalize | merge_ycsb_large.py:48-49 | every slot is divided by `runs` |
| MergeYcsbLarge.AggregateAll | merge_ycsb_large.py:42-49 | the table is produced iff every method's files read and either `runs != 0` or there are no methods; it holds one averaged row per method; otherwise the failure is a division by zero or is explained by a file |
| MergeYcsbLarge.ScaleSlotOfUniform | merge_ycsb_large.py:45-49 | if every run's file at a scale adds `v`, the averaged slot is `v` |
| MergeYcsbLarge.ScaleSlotIsMean | merge_ycsb_large.py:45-49 | if every run's reading at a scale lies between `lo` and `hi`, so does the averaged slot |
| MergeYcsbLarge.ExpectedRowScaled | merge_ycsb_large.py:42-49 | when every number in every file is read `c` times larger, every cell of every averaged row is `c` times larger |
| MergeYcsbLarge.Execute | merge_ycsb_large.py:42-54 | the output file is written iff all files read and `runs != 0`; its name depends only on whether the argument is `"True"`/`"true"`, and its text is the `scales,<methods>` table with one line per scale label |

## Left out

- File I/O. A file system is a map from path to the file's lines, as
  `readlines()` returns them. A missing key is a file `open` cannot find.
  `close`, `write` and the file mode are not modelled. The output is
  returned as a path and its whole text.
- `sys.argv` handling. `runs` is any integer, as `int(sys.argv[1])` can
  give. A missing argument and a non-numeric run count (`IndexError`,
  `ValueError`) are not modelled.
- `float(...)` is a parameter `parse: string -> Option<real>`, where `None`
  is the `ValueError`. `str(round(x, 2))` is a parameter `format`. Neither
  conversion is modelled further.
- Floating-point arithmetic. Readings and sums are `real`, so rounding error
  and summation order are not modelled.
- The first assignment of `workloads` in `merge_ycsb.py` (line 5). Line 6
  overwrites it.
- The partial contents of `total_results` when an exception ends a run.
  The model says only that nothing is written.
- MergeYcsb.AggregateAll: the failure it reports is shown to come from a real
  missing or unreadable file of some method. It is not proved to be the first
  such file in loop order.
- MergeYcsbLarge.AggregateAll: the same.
- The line view (`ResultFile.View`) computes the number of every marker line. In
  `merge_ycsb_large.py` a `Load throughput` line is never parsed while the
  workload is `b`. The model computes that number but never uses it, so no
  failure can come from it.
- `str(k)` is modelled only for the non-negative run numbers the loops
  produce. It is defined by counting up from `"0"`; `PyStr.DecimalDigits`
  shows that the result is the decimal notation of `k`.
- Strings are sequences of Unicode characters. `strip()` removes exactly
  the characters for which `str.isspace()` holds.
