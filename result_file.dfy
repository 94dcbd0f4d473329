/**
 * What both scripts read from a YCSB result file: its marker lines
 * (`Load throughput...: <n>` and `Run throughput...: <n>`), the number after
 * the last colon of such a line, and the experiment every file of the grid
 * belongs to.
 */
module ResultFile {
  import opened Wrappers
  import opened PyStr

  const LoadPrefix: string := "Load throughput"
  const RunPrefix: string := "Run throughput"

  /** Which marker, if any, a line carries once it is stripped. */
  datatype Marker = LoadMarker | RunMarker | NoMarker

  /**
   * The `if`/`elif` test of both `aggregate` functions: the stripped line is
   * tested for the Load prefix first, then for the Run prefix.
   */
  function Classify(raw: string): Marker {
    var line := Strip(raw);
    if StartsWith(line, LoadPrefix) then LoadMarker
    else if StartsWith(line, RunPrefix) then RunMarker
    else NoMarker
  }

  /**
   * `float(line.split(':')[-1].strip())` on the stripped line; `parse`
   * stands for `float`, and `None` for the `ValueError` it raises.
   */
  function Reading(raw: string, parse: string -> Option<real>): Option<real> {
    parse(Strip(AfterLastColon(Strip(raw))))
  }

  /**
   * The number a marker line reports is the text after its last colon,
   * stripped, whatever comes before the colon and whatever whitespace
   * surrounds the line.
   */
  lemma ReadingAfterColon(head: string, tail: string, parse: string -> Option<real>)
    requires ':' !in tail
    ensures Reading(head + [':'] + tail, parse) == parse(Strip(tail))
  {
    var front, e := StripKeepsColon(head, tail);
    AfterLastColonOf(front, tail[..e]);
    assert tail == tail[..e] + tail[e..];
    StripIgnoresTrailingSpace(tail[..e], tail[e..]);
  }

  /**
   * What `aggregate` sees of one line: its marker and, on a marker line, the
   * number after its last colon (a line without a marker is never parsed).
   */
  datatype Line = Line(marker: Marker, reading: Option<real>)

  function View(raw: string, parse: string -> Option<real>): Line {
    var marker := Classify(raw);
    Line(marker, if marker == NoMarker then None else Reading(raw, parse))
  }

  /**
   * `data[i].strip()` comes before both prefix tests and the parse, so
   * whitespace around a line changes neither its marker nor its number.
   */
  lemma ViewIgnoresPadding(pre: string, raw: string, post: string, parse: string -> Option<real>)
    requires AllSpace(pre) && AllSpace(post)
    ensures View(pre + raw + post, parse) == View(raw, parse)
  {
    StripIgnoresPadding(pre, raw, post);
  }

  /** The view of every line of a file, in order. */
  function Views(raw: seq<string>, parse: string -> Option<real>): (lines: seq<Line>)
    ensures |lines| == |raw|
  {
    seq(|raw|, i requires 0 <= i < |raw| => View(raw[i], parse))
  }

  /**
   * `scaled` rejects exactly the texts `parse` rejects and reads every
   * other text as `c` times what `parse` reads.
   */
  ghost predicate ScaledParse(parse: string -> Option<real>, scaled: string -> Option<real>, c: real) {
    forall s :: (scaled(s).None? <==> parse(s).None?) && (parse(s).Some? ==> scaled(s).value == c * parse(s).value)
  }

  /** `scaled` has the markers of `lines`, and the same numbers multiplied by `c`. */
  predicate ScaledLines(lines: seq<Line>, scaled: seq<Line>, c: real) {
    |scaled| == |lines| &&
    forall i :: 0 <= i < |lines| ==>
      scaled[i].marker == lines[i].marker && (scaled[i].reading.Some? <==> lines[i].reading.Some?) &&
      (lines[i].reading.Some? ==> scaled[i].reading.value == c * lines[i].reading.value)
  }

  /** What `scaled` makes of one text `t`, given what both make of it as `x` and `y`. */
  lemma ParseScaled(t: string, parse: string -> Option<real>, scaled: string -> Option<real>, c: real,
                    x: Option<real>, y: Option<real>)
    requires ScaledParse(parse, scaled, c) && x == parse(t) && y == scaled(t)
    ensures y.Some? <==> x.Some?
    ensures x.Some? ==> y.value == c * x.value
  {
  }

  /** Reading every number `c` times larger multiplies the number of a line by `c` and rejects the same lines. */
  lemma ReadingScaled(raw: string, parse: string -> Option<real>, scaled: string -> Option<real>, c: real)
    requires ScaledParse(parse, scaled, c)
    ensures Reading(raw, scaled).Some? <==> Reading(raw, parse).Some?
    ensures Reading(raw, parse).Some? ==> Reading(raw, scaled).value == c * Reading(raw, parse).value
  {
    ParseScaled(Strip(AfterLastColon(Strip(raw))), parse, scaled, c, Reading(raw, parse), Reading(raw, scaled));
  }

  /** Reading every number `c` times larger keeps a line's marker and multiplies its number by `c`. */
  lemma ViewScaled(raw: string, parse: string -> Option<real>, scaled: string -> Option<real>, c: real)
    requires ScaledParse(parse, scaled, c)
    ensures View(raw, scaled).marker == View(raw, parse).marker
    ensures View(raw, scaled).reading.Some? <==> View(raw, parse).reading.Some?
    ensures View(raw, parse).reading.Some? ==> View(raw, scaled).reading.value == c * View(raw, parse).reading.value
  {
    ReadingScaled(raw, parse, scaled, c);
  }

  /** The same for every line of a file. */
  lemma ViewsScaled(data: seq<string>, parse: string -> Option<real>, scaled: string -> Option<real>, c: real)
    requires ScaledParse(parse, scaled, c)
    ensures ScaledLines(Views(data, parse), Views(data, scaled), c)
  {
    forall i | 0 <= i < |data|
      ensures Views(data, scaled)[i].marker == Views(data, parse)[i].marker
      ensures Views(data, scaled)[i].reading.Some? <==> Views(data, parse)[i].reading.Some?
      ensures Views(data, parse)[i].reading.Some? ==> Views(data, scaled)[i].reading.value == c * Views(data, parse)[i].reading.value
    {
      ViewScaled(data[i], parse, scaled, c);
    }
  }

  /**
   * The body of the loop of `aggregate` up to the number: `data[i].strip()`,
   * the two prefix tests in order, and on a marker line
   * `float(line.split(':')[-1].strip())`.
   */
  method ReadLine(data: seq<string>, i: nat, parse: string -> Option<real>) returns (line: Line)
    requires i < |data|
    ensures line == Views(data, parse)[i]
  {
    var stripped := Strip(data[i]);
    if StartsWith(stripped, LoadPrefix) {
      line := Line(LoadMarker, parse(Strip(AfterLastColon(stripped))));
    } else if StartsWith(stripped, RunPrefix) {
      line := Line(RunMarker, parse(Strip(AfterLastColon(stripped))));
    } else {
      line := Line(NoMarker, None);
    }
  }

  /**
   * The index of the first line carrying `kind`, or `|lines|` when none
   * does: every line before it carries another marker or none.
   */
  function FirstMarker(lines: seq<Line>, kind: Marker): (f: nat)
    ensures f <= |lines|
    ensures forall j :: 0 <= j < f ==> lines[j].marker != kind
    ensures f < |lines| ==> lines[f].marker == kind
    decreases |lines|
  {
    if lines == [] then 0
    else if lines[0].marker == kind then 0
    else 1 + FirstMarker(lines[1..], kind)
  }

  /** Lines appended after the first `kind` line do not move it. */
  lemma FirstMarkerAppend(lines: seq<Line>, extra: seq<Line>, kind: Marker)
    requires FirstMarker(lines, kind) < |lines|
    ensures FirstMarker(lines + extra, kind) == FirstMarker(lines, kind)
  {
    var f, g := FirstMarker(lines, kind), FirstMarker(lines + extra, kind);
    assert (lines + extra)[f] == lines[f];
  }

  /** The files of a run directory: a missing key is a file `open` cannot find. */
  type FileSystem = map<string, seq<string>>

  /**
   * The inputs every aggregation reads: the run count (`int(sys.argv[1])`),
   * the experiment directory (`sys.argv[2]`), the files as lists of lines
   * (`readlines()`), and `float` as `parse`.
   */
  datatype Experiment = Experiment(runs: int, dir: string, files: FileSystem, parse: string -> Option<real>)

  /** The same run count, directory and files as `e`, with every number read `c` times larger. */
  ghost predicate ScaledExperiment(e: Experiment, scaled: Experiment, c: real) {
    scaled.runs == e.runs && scaled.dir == e.dir && scaled.files == e.files && ScaledParse(e.parse, scaled.parse, c)
  }

  /** Why a run of either script stops without writing its output file. */
  datatype Failure =
    | MissingFile(path: string)   // `open(filename, "r")` raises
    | Unparsable(path: string)    // `float(...)` raises on a marker line of this file
    | ZeroDivision                // `/= runs*...*1.0` with `runs == 0`

  /** What stops a run at a file that does not read: `open` when it is missing, else `float`. */
  function FileFailure(e: Experiment, path: string): Failure {
    if path !in e.files then MissingFile(path) else Unparsable(path)
  }

  /** What a run of either script ends with. */
  datatype Outcome<T> = Done(value: T) | Failed(failure: Failure)

  /** The file written by `output`: its name and its whole text. */
  datatype OutputFile = OutputFile(path: string, text: string)
}
