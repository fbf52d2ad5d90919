/** The multidensity report formatter: it reads a benchmark table (a header
    and data rows of Treatment, Density, Bytes and QPS), checks the header,
    and writes an '&'-delimited LaTeX table to standard output. Treatment
    names are relabelled for display, a `\hline` separates groups of rows
    with the same (relabelled) treatment, and each row's Bytes and QPS are
    turned into a size in MB, a kQPS figure and the derived DQ = QPS / MB.

    Standard output is modelled as the sequence of lines written so far; the
    run either reaches the end of the table or stops at the first error, and
    the lines written before that error stay written. */
module MultidensityTable {
  import opened PyFormat

  datatype Option<T> = None | Some(value: T)

  /** Python's float() applied to one csv field: the value it denotes, or
      None where float() raises ValueError. */
  type Parser = string -> Option<real>

  type Row = seq<string>

  /** One line of standard output: a bare `\hline` printed between groups,
      or a record written by the '&'-delimited csv writer. */
  datatype Line = HLine | Record(fields: Row)

  /** Why a data row stopped the run. */
  datatype RowFault =
    | MissingField            // IndexError: too few fields for row[0] or row[-2]
    | NotANumber(text: string) // ValueError: float() rejected this field
    | ZeroSize                // ZeroDivisionError: the size in MB is zero

  datatype Error =
    | EmptyInput              // the table has no header line
    | SchemaMismatch          // the header assertion failed
    | BadRow(index: nat, fault: RowFault)  // data row `index` (from 0) failed

  datatype Outcome = Outcome(written: seq<Line>, error: Option<Error>)

  /** The reshaped fields of one (already relabelled) row, or why it failed. */
  datatype Reshaping = Reshaped(fields: Row) | Failed(fault: RowFault)

  const Schema: Row := ["Treatment", "Density", "Bytes", "QPS"]

  /** The LaTeX row terminator, two backslashes. */
  const Terminator: string := "\\\\"

  const OutputHeader: Row := ["Treatment", "Density", "Size (MB)", "kQPS", "DQ" + Terminator]

  /** The renamed treatments and their display names. No two renamings
      share a treatment, so the order in which they are tested is immaterial. */
  const Renames: map<string, string> :=
    map["ClassicBitsliced" := "BitslicedSignature",
        "PrivateSharedRank0" := "FreqConscious",
        "Optimal" := "GeneralizedBlocked"]

  predicate EndsWithTerminator(s: string) {
    |s| >= 2 && s[|s| - 2..] == Terminator
  }

  /* ---------------------------------------------------------------- header */

  /** The header rewrite: the last two labels become "Size (MB)" and "kQPS",
      a "DQ" label is appended and gets the row terminator. */
  method RewriteHeader(header: Row) returns (out: Row)
    requires |header| >= 2
    ensures |out| == |header| + 1
    ensures out[..|header| - 2] == header[..|header| - 2]
    ensures out[|header| - 2..] == ["Size (MB)", "kQPS", "DQ" + Terminator]
  {
    out := header;
    out := out[|out| - 2 := "Size (MB)"];
    out := out[|out| - 1 := "kQPS"];
    out := out + ["DQ"];
    out := out[|out| - 1 := out[|out| - 1] + Terminator];
  }

  /** The header record has five labels, keeps the first two input labels,
      and only its last label carries the terminator. */
  lemma OutputHeaderShape()
    ensures |OutputHeader| == 5 && OutputHeader[..2] == Schema[..2]
    ensures EndsWithTerminator(OutputHeader[4])
    ensures forall i :: 0 <= i < 4 ==> !EndsWithTerminator(OutputHeader[i])
  {
  }

  /* ------------------------------------------------------------- relabel */

  /** The display name of a treatment. */
  function Relabel(name: string): (r: string)
    ensures r !in Renames
    ensures name in Renames || r == name
  {
    if name in Renames then Renames[name] else name
  }

  /** The three renamings, and no others. */
  lemma RelabelTable(name: string)
    ensures Relabel("ClassicBitsliced") == "BitslicedSignature"
    ensures Relabel("PrivateSharedRank0") == "FreqConscious"
    ensures Relabel("Optimal") == "GeneralizedBlocked"
    ensures name != "ClassicBitsliced" && name != "PrivateSharedRank0" && name != "Optimal"
      ==> Relabel(name) == name
  {
  }

  /** No display name is itself renamed, so relabelling twice changes nothing. */
  lemma RelabelIdempotent(name: string)
    ensures forall raw <- Renames.Keys :: Renames[raw] !in Renames
    ensures Relabel(Relabel(name)) == Relabel(name)
  {
  }

  function Relabelled(row: Row): (r: Row)
    requires row != []
  {
    row[0 := Relabel(row[0])]
  }

  /* ------------------------------------------------------------- reshape */

  /** Bytes scaled to megabytes by the factor 651587 / 1000000. */
  function SizeInMB(bytes: real): (r: real)
    ensures r == 0.0 <==> bytes == 0.0
    ensures bytes > 0.0 ==> 0.0 < r < bytes
  {
    bytes * 651587.0 / 1000000.0
  }

  /** Whether one relabelled row can be reshaped: it needs a Bytes (second
      last) and a QPS (last) field, both numbers, and a non-zero size. */
  function Check(parse: Parser, row: Row): (r: Option<RowFault>)
    ensures r == Some(MissingField) <==> |row| < 2
  {
    if |row| < 2 then Some(MissingField)
    else
      var n := |row|;
      match parse(row[n - 2])
      case None => Some(NotANumber(row[n - 2]))
      case Some(bytes) =>
        match parse(row[n - 1])
        case None => Some(NotANumber(row[n - 1]))
        case Some(_) => if SizeInMB(bytes) == 0.0 then Some(ZeroSize) else None
  }

  /** The reshaping of one relabelled row: Bytes and QPS are replaced by the
      formatted size in MB, the formatted kQPS and the formatted DQ with the
      row terminator. DQ divides by the unrounded size. */
  function Reshape(parse: Parser, row: Row): (r: Reshaping)
    ensures r.Reshaped? ==> |r.fields| == |row| + 1
  {
    match Check(parse, row)
    case Some(fault) => Failed(fault)
    case None =>
      var n := |row|;
      var mb, qps := SizeInMB(parse(row[n - 2]).value), parse(row[n - 1]).value;
      Reshaped(row[..n - 2] + [Fmt0(mb), Fmt0(qps / 1000.0), Fmt0(qps / mb) + Terminator])
  }

  /** The in-place rewrite of one relabelled row, edit by edit, addressing the
      fields from the end. Python's str()/float() round trip through the Bytes
      slot is the identity on finite values, so the size is kept as a real. */
  method ReshapeRow(parse: Parser, row: Row) returns (fields: Row, fault: Option<RowFault>)
    ensures fault.None? <==> Reshape(parse, row).Reshaped?
    ensures fault.None? ==> fields == Reshape(parse, row).fields
    ensures fault.Some? ==> fault.value == Reshape(parse, row).fault
  {
    fields := row;
    if |fields| < 2 {
      return fields, Some(MissingField);
    }
    var bytes := parse(fields[|fields| - 2]);
    if bytes.None? {
      return fields, Some(NotANumber(fields[|fields| - 2]));
    }
    var mb := SizeInMB(bytes.value);
    var qps := parse(fields[|fields| - 1]);
    if qps.None? {
      return fields, Some(NotANumber(fields[|fields| - 1]));
    }
    if mb == 0.0 {
      return fields, Some(ZeroSize);
    }
    fields := fields + [Fmt0(qps.value / mb)];
    var again := parse(fields[|fields| - 2]);
    fields := fields[|fields| - 2 := Fmt0(again.value / 1000.0)];
    fields := fields[|fields| - 3 := Fmt0(mb)];
    fields := fields[|fields| - 1 := fields[|fields| - 1] + Terminator];
    fault := None;
  }

  /** Reshaping fails exactly when a field is missing, Bytes or QPS is not a
      number, or Bytes is zero, and it checks them in that order. */
  lemma ReshapeFaults(parse: Parser, row: Row)
    ensures Reshape(parse, row).Reshaped? <==>
      && |row| >= 2
      && parse(row[|row| - 2]).Some? && parse(row[|row| - 1]).Some?
      && parse(row[|row| - 2]).value != 0.0
    ensures Reshape(parse, row) == Failed(MissingField) <==> |row| < 2
    ensures |row| >= 2 ==>
      var n := |row|;
      && (parse(row[n - 2]).None? ==> Reshape(parse, row) == Failed(NotANumber(row[n - 2])))
      && (parse(row[n - 2]).Some? && parse(row[n - 1]).None? ==>
            Reshape(parse, row) == Failed(NotANumber(row[n - 1])))
      && (parse(row[n - 2]).Some? && parse(row[n - 1]).Some? ==>
            (Reshape(parse, row) == Failed(ZeroSize) <==> parse(row[n - 2]).value == 0.0))
  {
  }

  /* ---------------------------------------------------------- data rows */

  /** The treatment a data row is grouped by: its relabelled first field. */
  function Label(row: Row): (r: string)
    ensures r !in Renames
  {
    if row == [] then "" else Relabel(row[0])
  }

  predicate RowOk(parse: Parser, row: Row) {
    row != [] && Check(parse, Relabelled(row)).None?
  }

  function Fields(parse: Parser, row: Row): Row
    requires RowOk(parse, row)
  {
    Reshape(parse, Relabelled(row)).fields
  }

  function Fault(parse: Parser, row: Row): RowFault
    requires !RowOk(parse, row)
  {
    if row == [] then MissingField else Check(parse, Relabelled(row)).value
  }

  /** Each well-formed four-field row becomes five fields: the relabelled
      treatment, the density unchanged, the size in MB, the kQPS and the DQ
      with the terminator. */
  lemma ReshapeFourFields(parse: Parser, row: Row)
    requires |row| == 4 && RowOk(parse, row)
    ensures parse(row[2]).Some? && parse(row[3]).Some? && parse(row[2]).value != 0.0
    ensures
      var mb, qps := SizeInMB(parse(row[2]).value), parse(row[3]).value;
      Fields(parse, row)
        == [Relabel(row[0]), row[1], Fmt0(mb), Fmt0(qps / 1000.0), Fmt0(qps / mb) + Terminator]
  {
    var r := Relabelled(row);
    assert r[..2] == [Relabel(row[0]), row[1]] && r[2] == row[2] && r[3] == row[3];
  }

  /** Of the three new fields of a four-field row, only the DQ field carries
      the terminator. */
  lemma OnlyLastTerminated(parse: Parser, row: Row)
    requires |row| == 4 && RowOk(parse, row)
    ensures var f := Fields(parse, row);
      |f| == 5 && !EndsWithTerminator(f[2]) && !EndsWithTerminator(f[3]) && EndsWithTerminator(f[4])
  {
    ReshapeFourFields(parse, row);
    var mb, qps := SizeInMB(parse(row[2]).value), parse(row[3]).value;
    NoTerminator(mb);
    NoTerminator(qps / 1000.0);
    Terminated(Fmt0(qps / mb));
  }

  lemma Terminated(s: string)
    ensures EndsWithTerminator(s + Terminator)
  {
    assert (s + Terminator)[|s|..] == Terminator;
  }

  /** A formatted number never ends in the terminator. */
  lemma NoTerminator(x: real)
    ensures !EndsWithTerminator(Fmt0(x))
  {
    var s := Fmt0(x);
    Fmt0Meaning(x);
    assert s[|s| - 1] != '\\';
  }

  /** The figures of the worked example, formatted: 651.587 shows as 652,
      2000000 / 1000 as 2000, and the DQ 2000000 / 651.587 as 3069, while
      2000000 / 652 would show as 3067. */
  lemma WorkedFigures()
    ensures SizeInMB(1000.0) == 651.587
    ensures Fmt0(651.587) == "652"
    ensures Fmt0(2000000.0 / 1000.0) == "2000"
    ensures Fmt0(2000000.0 / 651.587) == "3069"
    ensures Fmt0(2000000.0 / 652.0) == "3067"
  {
    assert (651.587).Floor == 651;
    assert Decimal(652) == "652";
    assert (2000000.0 / 1000.0).Floor == 2000;
    assert Decimal(2000) == "2000";
    assert (2000000.0 / 651.587).Floor == 3069;
    assert Decimal(3069) == "3069";
    assert (2000000.0 / 652.0).Floor == 3067;
    assert Decimal(3067) == "3067";
  }

  /** The worked example of the report: 1000 bytes and 2000000 queries per
      second give a size of 651.587 MB, shown as 652, 2000 kQPS and a DQ of
      3069; dividing by the rounded size instead would have shown 3067. */
  lemma WorkedExample(parse: Parser)
    requires parse("1000.0") == Some(1000.0) && parse("2000000") == Some(2000000.0)
    ensures RowOk(parse, ["ClassicBitsliced", "0.1", "1000.0", "2000000"])
    ensures Fields(parse, ["ClassicBitsliced", "0.1", "1000.0", "2000000"])
      == ["BitslicedSignature", "0.1", "652", "2000", "3069\\\\"]
  {
    var raw := ["ClassicBitsliced", "0.1", "1000.0", "2000000"];
    RelabelTable(raw[0]);
    var r := Relabelled(raw);
    assert |r| == 4 && r[2] == "1000.0" && r[3] == "2000000";
    assert RowOk(parse, raw);
    ReshapeFourFields(parse, raw);
    assert Fields(parse, raw) == ["BitslicedSignature", "0.1", Fmt0(SizeInMB(1000.0)),
      Fmt0(2000000.0 / 1000.0), Fmt0(2000000.0 / SizeInMB(1000.0)) + Terminator];
    WorkedFigures();
    assert "3069" + Terminator == "3069\\\\";
  }

  /* ------------------------------------------------- the whole report */

  /** The treatment remembered when data row k is reached: that of the row
      before it, or the empty string before the first row. */
  function Previous(rows: seq<Row>, k: nat): string
    requires k <= |rows|
  {
    if k == 0 then "" else Label(rows[k - 1])
  }

  predicate Boundary(rows: seq<Row>, k: nat)
    requires k < |rows|
  {
    Label(rows[k]) != Previous(rows, k)
  }

  function Separator(rows: seq<Row>, k: nat): seq<Line>
    requires k < |rows|
  {
    if Boundary(rows, k) then [HLine] else []
  }

  /** The index of the first data row that fails, or |rows| if none does. */
  function FirstBad(parse: Parser, rows: seq<Row>): (k: nat)
    ensures k <= |rows|
    ensures forall j :: 0 <= j < k ==> RowOk(parse, rows[j])
    ensures k < |rows| ==> !RowOk(parse, rows[k])
  {
    if rows == [] || !RowOk(parse, rows[0]) then 0
    else 1 + FirstBad(parse, rows[1..])
  }

  /** Which of the first n data rows start a new group. */
  function GroupStarts(rows: seq<Row>, n: nat): (flags: seq<bool>)
    requires n <= |rows|
    ensures |flags| == n
  {
    if n == 0 then [] else GroupStarts(rows, n - 1) + [Boundary(rows, n - 1)]
  }

  /** The reshaped records of the first n data rows, all of them good. */
  function GoodRecords(parse: Parser, rows: seq<Row>, n: nat): (records: seq<Row>)
    requires n <= FirstBad(parse, rows)
    ensures |records| == n
  {
    if n == 0 then [] else GoodRecords(parse, rows, n - 1) + [Fields(parse, rows[n - 1])]
  }

  /** The first n records, each preceded by a `\hline` when its flag says
      so. */
  function Interleave(flags: seq<bool>, records: seq<Row>, n: nat): seq<Line>
    requires n <= |flags| && n <= |records|
  {
    if n == 0 then []
    else Interleave(flags, records, n - 1) + (if flags[n - 1] then [HLine] else []) + [Record(records[n - 1])]
  }

  /** The lines written for the first n data rows, when all of them are
      good: per row, a `\hline` if it starts a group, then its record. */
  function GoodLines(parse: Parser, rows: seq<Row>, n: nat): seq<Line>
    requires n <= FirstBad(parse, rows)
  {
    Interleave(GroupStarts(rows, n), GoodRecords(parse, rows, n), n)
  }

  /** Interleaving looks only at the first n flags and records. */
  lemma {:induction false} InterleaveAgree(f: seq<bool>, r: seq<Row>, g: seq<bool>, s: seq<Row>, n: nat)
    requires n <= |f| && n <= |r| && n <= |g| && n <= |s|
    requires forall i :: 0 <= i < n ==> f[i] == g[i]
    requires forall i :: 0 <= i < n ==> r[i] == s[i]
    ensures Interleave(f, r, n) == Interleave(g, s, n)
  {
    if n > 0 {
      InterleaveAgree(f, r, g, s, n - 1);
    }
  }

  lemma FirstBadAt(parse: Parser, rows: seq<Row>, k: nat)
    requires k <= |rows|
    requires forall j :: 0 <= j < k ==> RowOk(parse, rows[j])
    requires k < |rows| ==> !RowOk(parse, rows[k])
    ensures FirstBad(parse, rows) == k
  {
  }

  /** A good row k extends the lines of the rows before it by its separator
      and its record. */
  lemma GoodLinesStep(parse: Parser, rows: seq<Row>, k: nat)
    requires k <= FirstBad(parse, rows) && k < |rows| && RowOk(parse, rows[k])
    ensures k + 1 <= FirstBad(parse, rows)
    ensures GoodLines(parse, rows, k + 1)
      == GoodLines(parse, rows, k) + Separator(rows, k) + [Record(Fields(parse, rows[k]))]
  {
    FirstBadPast(parse, rows, k);
    GroupedStep(rows, GoodRecords(parse, rows, k), Fields(parse, rows[k]), k);
  }

  /** One more data row adds its separator and its record to the grouped
      lines, whatever the records are. */
  lemma GroupedStep(rows: seq<Row>, records: seq<Row>, next: Row, k: nat)
    requires k < |rows| && |records| == k
    ensures Interleave(GroupStarts(rows, k + 1), records + [next], k + 1)
      == Interleave(GroupStarts(rows, k), records, k) + Separator(rows, k) + [Record(next)]
  {
    InterleaveAgree(GroupStarts(rows, k + 1), records + [next], GroupStarts(rows, k), records, k);
  }

  lemma FirstBadPast(parse: Parser, rows: seq<Row>, k: nat)
    requires k <= FirstBad(parse, rows) && k < |rows| && RowOk(parse, rows[k])
    ensures k + 1 <= FirstBad(parse, rows)
  {
  }

  /** A failing row k after k good rows ends the pass: it gets its
      separator, unless it has no fields, and its fault is reported. */
  lemma StopsAt(parse: Parser, rows: seq<Row>, k: nat)
    requires k <= FirstBad(parse, rows) && k < |rows| && !RowOk(parse, rows[k])
    ensures RowsReport(parse, rows).error == Some(BadRow(k, Fault(parse, rows[k])))
    ensures RowsReport(parse, rows).written
      == GoodLines(parse, rows, k) + (if rows[k] == [] then [] else Separator(rows, k))
  {
    FirstBadAt(parse, rows, k);
  }

  /** With the previous treatment remembered, the separator of a non-empty
      row k is decided by comparing its treatment with it. */
  lemma SeparatorStep(rows: seq<Row>, k: nat, last: string)
    requires k < |rows| && last == Previous(rows, k)
    ensures rows[k] != [] ==> Separator(rows, k) == if Label(rows[k]) != last then [HLine] else []
    ensures Previous(rows, k + 1) == Label(rows[k])
  {
  }

  /** Everything a run writes and how it ends, for a table given as its
      header line followed by its data rows. */
  function Report(parse: Parser, table: seq<Row>): (r: Outcome)
    ensures r.written == [] <==> table == [] || table[0] != Schema
    ensures r.written != [] ==> r.written[0] == Record(OutputHeader)
    ensures r.error.Some? && r.error.value.BadRow? ==> r.error.value.index < |table| - 1
  {
    if table == [] then Outcome([], Some(EmptyInput))
    else if table[0] != Schema then Outcome([], Some(SchemaMismatch))
    else
      var body := RowsReport(parse, table[1..]);
      Outcome([Record(OutputHeader)] + body.written, body.error)
  }

  /** What the pass over the data rows writes after the header, and how it
      ends: every row before the first failing one contributes its chunk; the
      failing row still gets its separator, unless it has no fields at all. */
  function RowsReport(parse: Parser, rows: seq<Row>): (r: Outcome)
    ensures r.error.None? ==> forall j :: 0 <= j < |rows| ==> RowOk(parse, rows[j])
    ensures r.error.Some? ==>
      && r.error.value.BadRow? && r.error.value.index < |rows|
      && !RowOk(parse, rows[r.error.value.index])
      && forall j :: 0 <= j < r.error.value.index ==> RowOk(parse, rows[j])
  {
    var k := FirstBad(parse, rows);
    if k == |rows| then Outcome(GoodLines(parse, rows, k), None)
    else
      var partial := if rows[k] == [] then [] else Separator(rows, k);
      Outcome(GoodLines(parse, rows, k) + partial, Some(BadRow(k, Fault(parse, rows[k]))))
  }

  /** One pass of the loop over data rows: relabel the treatment, decide
      whether a `\hline` goes before the row (its treatment differs from the
      last one seen), remember the treatment, then reshape the row. A row
      without fields fails before anything is decided. */
  method ProcessRow(parse: Parser, row: Row, last: string)
    returns (hline: bool, next: string, fields: Row, fault: Option<RowFault>)
    ensures row != [] ==> (hline <==> Label(row) != last) && next == Label(row)
    ensures row == [] ==> !hline && next == last
    ensures fault.None? <==> RowOk(parse, row)
    ensures fault.None? ==> fields == Fields(parse, row)
    ensures fault.Some? ==> fault.value == Fault(parse, row)
  {
    if row == [] {
      return false, last, row, Some(MissingField);
    }
    var relabelled := row[0 := Relabel(row[0])];
    hline := relabelled[0] != last;
    next := relabelled[0];
    fields, fault := ReshapeRow(parse, relabelled);
  }

  /** The script: check and rewrite the header, then one pass over the data
      rows remembering the last treatment seen. */
  method Run(parse: Parser, table: seq<Row>) returns (written: seq<Line>, error: Option<Error>)
    ensures Outcome(written, error) == Report(parse, table)
  {
    written := [];
    if table == [] {
      return written, Some(EmptyInput);
    }
    var header := table[0];
    if header != Schema {
      return written, Some(SchemaMismatch);
    }
    var labels := RewriteHeader(header);
    assert labels == labels[..2] + labels[2..];
    assert labels[..2] == Schema[..2] == ["Treatment", "Density"];
    assert labels == OutputHeader;
    var body, failure := WriteRows(parse, table[1..]);
    written := [Record(labels)] + body;
    error := failure;
  }

  /** The loop over the data rows, remembering the last treatment seen; it
      stops at the first row that raises. */
  method WriteRows(parse: Parser, rows: seq<Row>) returns (written: seq<Line>, error: Option<Error>)
    ensures Outcome(written, error) == RowsReport(parse, rows)
  {
    written := [];
    var last := "";
    var k := 0;
    while k < |rows|
      invariant k <= FirstBad(parse, rows)
      invariant last == Previous(rows, k)
      invariant written == GoodLines(parse, rows, k)
    {
      var stop;
      written, last, stop := WriteRow(parse, rows, k, last, written);
      if stop.Some? {
        return written, stop;
      }
      k := k + 1;
    }
    error := None;
  }

  /** One pass of the loop body: data row k is processed and its lines are
      written after those of the good rows before it. The pass either stops
      the run, having written everything the run writes, or leaves the lines
      of the first k + 1 rows and their last treatment. */
  method WriteRow(parse: Parser, rows: seq<Row>, k: nat, last: string, written: seq<Line>)
    returns (out: seq<Line>, next: string, stop: Option<Error>)
    requires k < |rows| && k <= FirstBad(parse, rows)
    requires last == Previous(rows, k) && written == GoodLines(parse, rows, k)
    ensures stop.Some? ==> Outcome(out, stop) == RowsReport(parse, rows)
    ensures stop.None? ==>
      && k + 1 <= FirstBad(parse, rows)
      && next == Previous(rows, k + 1)
      && out == GoodLines(parse, rows, k + 1)
  {
    var hline, fields, fault;
    hline, next, fields, fault := ProcessRow(parse, rows[k], last);
    SeparatorStep(rows, k, last);
    out := written;
    if hline {
      out := out + [HLine];
    }
    if fault.Some? {
      StopsAt(parse, rows, k);
      return out, next, Some(BadRow(k, fault.value));
    }
    GoodLinesStep(parse, rows, k);
    out := out + [Record(fields)];
    stop := None;
  }
}
