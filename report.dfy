/**
 * The `output` function of both scripts: a header line naming the label
 * column and the methods, then one line per category holding the
 * category's label and one formatted cell per method.
 */
module Report {
  import opened PyStr

  /** The table every run writes: one cell per method per category. */
  type Table = map<string, seq<real>>

  /** Every method has a row in the table with a cell for each of `n` categories. */
  predicate Covers(methods: seq<string>, table: Table, n: nat) {
    forall m :: m in methods ==> m in table && |table[m]| >= n
  }

  /** The `i`-th cell of every method, formatted (`str(round(x, 2))` is `format`). */
  function Cells(methods: seq<string>, table: Table, i: nat, format: real -> string): (cells: seq<string>)
    requires Covers(methods, table, i + 1)
    ensures |cells| == |methods|
    ensures forall n :: 0 <= n < |methods| ==> cells[n] == format(table[methods[n]][i])
  {
    seq(|methods|, n requires 0 <= n < |methods| => format(table[methods[n]][i]))
  }

  /**
   * The fields of each output line: the label column's name and the
   * methods, then each category's label and its cells.
   */
  function Fields(column: string, labels: seq<string>, methods: seq<string>, table: Table,
                  format: real -> string): (rows: seq<seq<string>>)
    requires Covers(methods, table, |labels|)
    ensures |rows| == |labels| + 1 && rows[0] == [column] + methods
    ensures forall i :: 0 <= i < |labels| ==> rows[i + 1] == [labels[i]] + Cells(methods, table, i, format)
  {
    [[column] + methods] + seq(|labels|, i requires 0 <= i < |labels| => [labels[i]] + Cells(methods, table, i, format))
  }

  /** The lines of a file, one after the other. */
  function Concat(lines: seq<string>): string
    decreases |lines|
  {
    if lines == [] then "" else lines[0] + Concat(lines[1..])
  }

  lemma {:induction false} ConcatSnoc(lines: seq<string>, last: string)
    ensures Concat(lines + [last]) == Concat(lines) + last
    decreases |lines|
  {
    if lines != [] {
      ConcatSnoc(lines[1..], last);
      assert (lines + [last])[1..] == lines[1..] + [last];
    }
  }

  /** A line of the file: its fields separated by commas, ending in a newline. */
  function CsvLine(fields: seq<string>): string {
    Join(fields, ',') + "\n"
  }

  /** The whole text `output` writes. */
  function Document(column: string, labels: seq<string>, methods: seq<string>, table: Table,
                    format: real -> string): string
    requires Covers(methods, table, |labels|)
  {
    var rows := Fields(column, labels, methods, table, format);
    Concat(seq(|rows|, i requires 0 <= i < |rows| => CsvLine(rows[i])))
  }

  /**
   * The `+=` loop of `output` that builds one line: the first field, then
   * `"," + x` for each further field, then the newline.
   */
  method BuildLine(first: string, rest: seq<string>) returns (line: string)
    ensures line == CsvLine([first] + rest)
  {
    line := first;
    for k := 0 to |rest|
      invariant line == Join([first] + rest[..k], ',')
    {
      JoinSnoc([first] + rest[..k], rest[k], ',');
      assert [first] + rest[..k + 1] == [first] + rest[..k] + [rest[k]];
      line := line + "," + rest[k];
    }
    assert rest[..|rest|] == rest;
    line := line + "\n";
  }

  /**
   * `output`: the header line names the label column and the methods; then
   * each category's line holds its label and `str(round(result[m][i], 2))`
   * for each method `m`; each line is written after the previous one.
   */
  method Render(column: string, labels: seq<string>, methods: seq<string>, table: Table,
                format: real -> string) returns (text: string)
    requires Covers(methods, table, |labels|)
    ensures text == Document(column, labels, methods, table, format)
  {
    ghost var rows := Fields(column, labels, methods, table, format);
    ghost var lines := seq(|rows|, i requires 0 <= i < |rows| => CsvLine(rows[i]));
    text := BuildLine(column, methods);
    assert lines[..1] == [text];
    for i := 0 to |labels|
      invariant text == Concat(lines[..i + 1])
    {
      var line := BuildLine(labels[i], Cells(methods, table, i, format));
      ConcatSnoc(lines[..i + 1], line);
      assert lines[..i + 2] == lines[..i + 1] + [line];
      text := text + line;
    }
    assert lines[..|labels| + 1] == lines;
  }

  /** A field of a CSV line: no comma and no newline in it. */
  predicate Plain(s: string) {
    ',' !in s && '\n' !in s
  }

  /** Joining fields with commas brings in no newline. */
  lemma {:induction false} JoinKeepsOut(parts: seq<string>, sep: char, c: char)
    requires c != sep && forall i :: 0 <= i < |parts| ==> c !in parts[i]
    ensures c !in Join(parts, sep)
    decreases |parts|
  {
    if |parts| > 1 {
      JoinKeepsOut(parts[1..], sep, c);
    }
  }

  /** Newline-terminated lines without newlines split back into those lines, plus an empty tail. */
  lemma {:induction false} SplitConcatLines(ls: seq<string>)
    requires forall i :: 0 <= i < |ls| ==> '\n' !in ls[i]
    ensures Split(Concat(seq(|ls|, i requires 0 <= i < |ls| => ls[i] + "\n")), '\n') == ls + [""]
    decreases |ls|
  {
    var terminated := seq(|ls|, i requires 0 <= i < |ls| => ls[i] + "\n");
    if ls == [] {
      assert terminated == [];
    } else {
      var rest := ls[1..];
      SplitConcatLines(rest);
      assert terminated[1..] == seq(|rest|, i requires 0 <= i < |rest| => rest[i] + "\n");
      assert Concat(terminated) == ls[0] + ['\n'] + Concat(terminated[1..]);
      SplitCons(ls[0], Concat(terminated[1..]), '\n');
      assert [ls[0]] + (rest + [""]) == ls + [""];
    }
  }

  predicate AllPlain(fields: seq<string>) {
    forall f :: 0 <= f < |fields| ==> Plain(fields[f])
  }

  /**
   * Rows of plain fields written as newline-terminated, comma-separated
   * lines read back as those rows.
   */
  lemma CsvRoundTrip(rows: seq<seq<string>>)
    requires forall i :: 0 <= i < |rows| ==> |rows[i]| >= 1 && AllPlain(rows[i])
    ensures var lines := Split(Concat(seq(|rows|, i requires 0 <= i < |rows| => CsvLine(rows[i]))), '\n');
      |lines| == |rows| + 1 && lines[|rows|] == "" &&
      forall i :: 0 <= i < |rows| ==> Split(lines[i], ',') == rows[i]
  {
    var joined := seq(|rows|, i requires 0 <= i < |rows| => Join(rows[i], ','));
    forall i | 0 <= i < |rows|
      ensures '\n' !in joined[i] && Split(joined[i], ',') == rows[i]
    {
      JoinKeepsOut(rows[i], ',', '\n');
      SplitJoin(rows[i], ',');
    }
    SplitConcatLines(joined);
    assert seq(|joined|, i requires 0 <= i < |joined| => joined[i] + "\n")
        == seq(|rows|, i requires 0 <= i < |rows| => CsvLine(rows[i]));
  }

  lemma PlainCons(x: string, xs: seq<string>)
    requires Plain(x) && AllPlain(xs)
    ensures AllPlain([x] + xs)
  {
    assert forall f :: 1 <= f <= |xs| ==> ([x] + xs)[f] == xs[f - 1];
  }

  /** With plain names, labels and cells, every field of the table is plain. */
  lemma FieldsPlain(column: string, labels: seq<string>, methods: seq<string>, table: Table,
                    format: real -> string)
    requires Covers(methods, table, |labels|)
    requires Plain(column) && forall i :: 0 <= i < |labels| ==> Plain(labels[i])
    requires AllPlain(methods)
    requires forall x :: Plain(format(x))
    ensures var rows := Fields(column, labels, methods, table, format);
      forall i :: 0 <= i < |rows| ==> AllPlain(rows[i])
  {
    var rows := Fields(column, labels, methods, table, format);
    PlainCons(column, methods);
    forall i | 1 <= i < |rows|
      ensures AllPlain(rows[i])
    {
      CellsPlain(methods, table, i - 1, format);
      PlainCons(labels[i - 1], Cells(methods, table, i - 1, format));
    }
  }

  lemma CellsPlain(methods: seq<string>, table: Table, i: nat, format: real -> string)
    requires Covers(methods, table, i + 1)
    requires forall x :: Plain(format(x))
    ensures AllPlain(Cells(methods, table, i, format))
  {
    var cells := Cells(methods, table, i, format);
    forall n | 0 <= n < |cells| ensures Plain(cells[n]) {
      var x := table[methods[n]][i];
      assert cells[n] == format(x);
      assert Plain(format(x));
    }
  }

  /**
   * The written text is a well-formed table: split on newlines it gives one
   * line per row of `Fields` and an empty tail after the last newline, and
   * each line splits on commas back into its row's fields, provided no name,
   * label or formatted cell holds a comma or a newline.
   */
  lemma DocumentIsTable(column: string, labels: seq<string>, methods: seq<string>, table: Table,
                        format: real -> string)
    requires Covers(methods, table, |labels|)
    requires Plain(column) && forall i :: 0 <= i < |labels| ==> Plain(labels[i])
    requires AllPlain(methods)
    requires forall x :: Plain(format(x))
    ensures var rows := Fields(column, labels, methods, table, format);
      var lines := Split(Document(column, labels, methods, table, format), '\n');
      |lines| == |rows| + 1 && lines[|rows|] == "" &&
      forall i :: 0 <= i < |rows| ==> Split(lines[i], ',') == rows[i]
  {
    FieldsPlain(column, labels, methods, table, format);
    CsvRoundTrip(Fields(column, labels, methods, table, format));
  }
}
