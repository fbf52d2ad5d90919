/** Properties of the whole report: where the header gate stops a run, which
    data row a run stops at, how many `\hline` separators it writes and where
    each record lands, and that a failure never takes back what was written
    before it. */
module TableProperties {
  import opened MultidensityTable

  /* ----------------------------------------------------------- counting */

  /** The number of `\hline` lines among some output lines. */
  function HLines(lines: seq<Line>): nat {
    if lines == [] then 0
    else HLines(lines[..|lines| - 1]) + (if lines[|lines| - 1] == HLine then 1 else 0)
  }

  lemma {:induction false} HLinesAppend(a: seq<Line>, b: seq<Line>)
    ensures HLines(a + b) == HLines(a) + HLines(b)
    decreases |b|
  {
    if b == [] {
      assert a + b == a;
    } else {
      assert (a + b)[..|a + b| - 1] == a + b[..|b| - 1];
      HLinesAppend(a, b[..|b| - 1]);
    }
  }

  /** The number of true flags among the first n. */
  function CountTo(flags: seq<bool>, n: nat): nat
    requires n <= |flags|
  {
    if n == 0 then 0 else CountTo(flags, n - 1) + (if flags[n - 1] then 1 else 0)
  }

  /** How many of the first n data rows start a new group. */
  function Boundaries(rows: seq<Row>, n: nat): nat
    requires n <= |rows|
  {
    if n == 0 then 0 else Boundaries(rows, n - 1) + (if Boundary(rows, n - 1) then 1 else 0)
  }

  /* ------------------------------------------------------- interleaving */

  /** Interleaving n records gives n records and one `\hline` per set flag. */
  lemma {:induction false} InterleaveCounts(flags: seq<bool>, records: seq<Row>, n: nat)
    requires n <= |flags| && n <= |records|
    ensures |Interleave(flags, records, n)| == n + CountTo(flags, n)
    ensures HLines(Interleave(flags, records, n)) == CountTo(flags, n)
  {
    if n > 0 {
      var prior := Interleave(flags, records, n - 1);
      var sep: seq<Line> := if flags[n - 1] then [HLine] else [];
      InterleaveCounts(flags, records, n - 1);
      HLinesAppend(prior, sep);
      HLinesAppend(prior + sep, [Record(records[n - 1])]);
      assert HLines([Record(records[n - 1])]) == 0 by {
        assert [Record(records[n - 1])][..0] == [];
      }
      assert HLines(sep) == (if flags[n - 1] then 1 else 0) by {
        if flags[n - 1] {
          assert sep[..0] == [];
        }
      }
    }
  }

  /** Record k sits at position k + CountTo(flags, k + 1). */
  lemma {:induction false} InterleaveRecordAt(flags: seq<bool>, records: seq<Row>, n: nat, k: nat)
    requires n <= |flags| && n <= |records| && k < n
    ensures var out, p := Interleave(flags, records, n), k + CountTo(flags, k + 1);
      p < |out| && out[p] == Record(records[k])
  {
    var prior := Interleave(flags, records, n - 1);
    var tail: seq<Line> := (if flags[n - 1] then [HLine] else []) + [Record(records[n - 1])];
    assert Interleave(flags, records, n) == prior + tail;
    InterleaveCounts(flags, records, n - 1);
    if k < n - 1 {
      InterleaveRecordAt(flags, records, n - 1, k);
    }
  }

  /** The line just before record k is a `\hline` exactly when flag k is
      set. */
  lemma {:induction false} InterleaveFlagAt(flags: seq<bool>, records: seq<Row>, n: nat, k: nat)
    requires n <= |flags| && n <= |records| && k < n
    ensures var out, p := Interleave(flags, records, n), k + CountTo(flags, k + 1);
      p < |out| && (flags[k] <==> p > 0 && out[p - 1] == HLine)
  {
    var prior := Interleave(flags, records, n - 1);
    var tail: seq<Line> := (if flags[n - 1] then [HLine] else []) + [Record(records[n - 1])];
    assert Interleave(flags, records, n) == prior + tail;
    InterleaveCounts(flags, records, n - 1);
    if k < n - 1 {
      InterleaveFlagAt(flags, records, n - 1, k);
    } else if !flags[k] && k > 0 {
      InterleaveRecordAt(flags, records, n - 1, k - 1);
    }
  }

  /** Interleaving fewer records gives a prefix of the lines. */
  lemma {:induction false} InterleaveGrow(flags: seq<bool>, records: seq<Row>, m: nat, n: nat)
    requires m <= n <= |flags| && n <= |records|
    ensures Interleave(flags, records, m) <= Interleave(flags, records, n)
    decreases n - m
  {
    if m < n {
      InterleaveGrow(flags, records, m, n - 1);
    }
  }

  /* ------------------------------------------- flags and records by row */

  /** Flag k is row k's group start. */
  lemma {:induction false} GroupStartAt(rows: seq<Row>, n: nat, k: nat)
    requires k < n <= |rows|
    ensures GroupStarts(rows, n)[k] == Boundary(rows, k)
  {
    if k < n - 1 {
      GroupStartAt(rows, n - 1, k);
    }
  }

  /** Counting the flags of the first m rows counts their group starts. */
  lemma {:induction false} BoundariesCounted(rows: seq<Row>, m: nat, n: nat)
    requires m <= n <= |rows|
    ensures CountTo(GroupStarts(rows, n), m) == Boundaries(rows, m)
  {
    if m > 0 {
      BoundariesCounted(rows, m - 1, n);
      GroupStartAt(rows, n, m - 1);
    }
  }

  /** Record k is row k's reshaped fields. */
  lemma {:induction false} GoodRecordAt(parse: Parser, rows: seq<Row>, n: nat, k: nat)
    requires k < n <= FirstBad(parse, rows)
    ensures GoodRecords(parse, rows, n)[k] == Fields(parse, rows[k])
  {
    var prev := GoodRecords(parse, rows, n - 1);
    assert GoodRecords(parse, rows, n) == prev + [Fields(parse, rows[n - 1])];
    if k < n - 1 {
      GoodRecordAt(parse, rows, n - 1, k);
    }
  }

  /** The flags of the first n rows do not depend on the rows after them. */
  lemma {:induction false} GroupStartsExtended(rows: seq<Row>, more: seq<Row>, n: nat)
    requires n <= |rows|
    ensures GroupStarts(rows + more, n) == GroupStarts(rows, n)
  {
    if n > 0 {
      GroupStartsExtended(rows, more, n - 1);
      var all := rows + more;
      assert all[n - 1] == rows[n - 1];
      assert n >= 2 ==> all[n - 2] == rows[n - 2];
      assert Boundary(all, n - 1) == Boundary(rows, n - 1);
    }
  }

  /** The records of the first n good rows do not depend on the rows after
      them. */
  lemma {:induction false} GoodRecordsExtended(parse: Parser, rows: seq<Row>, more: seq<Row>, n: nat)
    requires n <= FirstBad(parse, rows) && n <= FirstBad(parse, rows + more)
    ensures GoodRecords(parse, rows + more, n) == GoodRecords(parse, rows, n)
  {
    if n > 0 {
      GoodRecordsExtended(parse, rows, more, n - 1);
      assert (rows + more)[n - 1] == rows[n - 1];
    }
  }

  /* ------------------------------------------------- lines for good rows */

  /** The lines for the first n good rows are one record per row plus one
      `\hline` per group start. */
  lemma GoodLinesCounts(parse: Parser, rows: seq<Row>, n: nat)
    requires n <= FirstBad(parse, rows)
    ensures |GoodLines(parse, rows, n)| == n + Boundaries(rows, n)
    ensures HLines(GoodLines(parse, rows, n)) == Boundaries(rows, n)
  {
    InterleaveCounts(GroupStarts(rows, n), GoodRecords(parse, rows, n), n);
    BoundariesCounted(rows, n, n);
  }

  /** With one record per data row, row k's record sits at position
      k + Boundaries(rows, k + 1). */
  lemma GroupedRecordAt(rows: seq<Row>, records: seq<Row>, n: nat, k: nat)
    requires k < n <= |rows| && n <= |records|
    ensures var c, p := Interleave(GroupStarts(rows, n), records, n), k + Boundaries(rows, k + 1);
      p < |c| && c[p] == Record(records[k])
  {
    InterleaveRecordAt(GroupStarts(rows, n), records, n, k);
    BoundariesCounted(rows, k + 1, n);
  }

  /** The line just before row k's record is a `\hline` exactly when row k
      starts a new group. */
  lemma GroupedSeparatorAt(rows: seq<Row>, records: seq<Row>, n: nat, k: nat)
    requires k < n <= |rows| && n <= |records|
    ensures var c, p := Interleave(GroupStarts(rows, n), records, n), k + Boundaries(rows, k + 1);
      p < |c| && (Boundary(rows, k) <==> p > 0 && c[p - 1] == HLine)
  {
    InterleaveFlagAt(GroupStarts(rows, n), records, n, k);
    BoundariesCounted(rows, k + 1, n);
    GroupStartAt(rows, n, k);
  }

  /** Lines, once written for a good row, stay at the front of the lines for
      all later good rows. */
  lemma GoodLinesGrow(parse: Parser, rows: seq<Row>, m: nat, n: nat)
    requires m <= n <= FirstBad(parse, rows)
    ensures GoodLines(parse, rows, m) <= GoodLines(parse, rows, n)
  {
    var f, r := GroupStarts(rows, n), GoodRecords(parse, rows, n);
    InterleaveGrow(f, r, m, n);
    forall i | 0 <= i < m
      ensures f[i] == GroupStarts(rows, m)[i] && r[i] == GoodRecords(parse, rows, m)[i]
    {
      GroupStartAt(rows, n, i);
      GroupStartAt(rows, m, i);
      GoodRecordAt(parse, rows, n, i);
      GoodRecordAt(parse, rows, m, i);
    }
    InterleaveAgree(f, r, GroupStarts(rows, m), GoodRecords(parse, rows, m), m);
  }

  /** The lines for the first n good rows depend on those rows only. */
  lemma GoodLinesExtended(parse: Parser, rows: seq<Row>, more: seq<Row>, n: nat)
    requires n <= FirstBad(parse, rows) && n <= FirstBad(parse, rows + more)
    ensures GoodLines(parse, rows + more, n) == GoodLines(parse, rows, n)
  {
    GroupStartsExtended(rows, more, n);
    GoodRecordsExtended(parse, rows, more, n);
  }

  /* ------------------------------------------------------ prefix growth */

  /** Rows appended after the first failing row cannot move it; rows
      appended to an all-good table can only push it further. */
  lemma {:induction false} FirstBadExtended(parse: Parser, rows: seq<Row>, more: seq<Row>)
    ensures FirstBad(parse, rows) <= FirstBad(parse, rows + more)
    ensures FirstBad(parse, rows) < |rows| ==> FirstBad(parse, rows + more) == FirstBad(parse, rows)
  {
    var k := FirstBad(parse, rows);
    var all := rows + more;
    assert forall j :: 0 <= j < k ==> all[j] == rows[j];
    if k < |rows| {
      assert all[k] == rows[k];
      FirstBadAt(parse, all, k);
    }
  }

  /** A run over more data rows writes at least what a run over the first
      rows writes, and if the first rows already stop the run, appending rows
      changes nothing. */
  lemma {:induction false} RowsNeverRetracted(parse: Parser, rows: seq<Row>, more: seq<Row>)
    ensures RowsReport(parse, rows).written <= RowsReport(parse, rows + more).written
    ensures RowsReport(parse, rows).error.Some? ==>
      RowsReport(parse, rows + more) == RowsReport(parse, rows)
  {
    var all := rows + more;
    var k, m := FirstBad(parse, rows), FirstBad(parse, all);
    FirstBadExtended(parse, rows, more);
    GoodLinesExtended(parse, rows, more, k);
    if k < |rows| {
      assert all[k] == rows[k];
      assert k >= 1 ==> all[k - 1] == rows[k - 1];
      assert Separator(all, k) == Separator(rows, k);
    } else {
      GoodLinesGrow(parse, all, k, m);
    }
  }

  /* ------------------------------------------------- the whole report */

  /** A table whose header matches and whose every data row can be
      reshaped. */
  predicate WellFormed(parse: Parser, table: seq<Row>) {
    table != [] && table[0] == Schema
    && forall i :: 1 <= i < |table| ==> RowOk(parse, table[i])
  }

  /** The header gate: an empty file and a wrong header stop the run before
      anything is written; otherwise the rewritten header is the first line. */
  lemma HeaderGate(parse: Parser, table: seq<Row>)
    ensures Report(parse, table).error == Some(EmptyInput) <==> table == []
    ensures Report(parse, table).error == Some(SchemaMismatch) <==> table != [] && table[0] != Schema
    ensures Report(parse, table).written == [] <==> table == [] || table[0] != Schema
    ensures table != [] && table[0] == Schema ==> Report(parse, table).written[0] == Record(OutputHeader)
  {
  }

  /** A run stops at data row k exactly when the header matches, the rows
      before k are good and row k is not; the fault is that row's. */
  lemma {:induction false} StopsAtFirstBadRow(parse: Parser, table: seq<Row>, k: nat, fault: RowFault)
    ensures Report(parse, table).error == Some(BadRow(k, fault)) <==>
      && table != [] && table[0] == Schema && k + 1 < |table|
      && (forall j :: 1 <= j <= k ==> RowOk(parse, table[j]))
      && !RowOk(parse, table[k + 1]) && fault == Fault(parse, table[k + 1])
  {
    if table != [] && table[0] == Schema {
      var rows := table[1..];
      assert forall j :: 0 <= j < |rows| ==> rows[j] == table[j + 1];
      if k + 1 < |table| && (forall j :: 1 <= j <= k ==> RowOk(parse, table[j]))
        && !RowOk(parse, table[k + 1])
      {
        FirstBadAt(parse, rows, k);
      }
    }
  }

  /** A run ends without error exactly when the table is well formed. */
  lemma {:induction false} SucceedsExactly(parse: Parser, table: seq<Row>)
    ensures Report(parse, table).error == None <==> WellFormed(parse, table)
  {
    if table != [] && table[0] == Schema {
      var rows := table[1..];
      assert forall j :: 0 <= j < |rows| ==> rows[j] == table[j + 1];
      if WellFormed(parse, table) {
        FirstBadAt(parse, rows, |rows|);
      }
    }
  }

  /** A successful run writes the header, one record per data row and one
      `\hline` per group start, and nothing else. */
  lemma {:induction false} SeparatorCount(parse: Parser, table: seq<Row>)
    requires WellFormed(parse, table)
    ensures var rows, out := table[1..], Report(parse, table).written;
      && HLines(out) == Boundaries(rows, |rows|)
      && |out| == 1 + |rows| + Boundaries(rows, |rows|)
  {
    SucceedsExactly(parse, table);
    var rows := table[1..];
    GoodLinesCounts(parse, rows, |rows|);
    HLinesAppend([Record(OutputHeader)], GoodLines(parse, rows, |rows|));
    assert HLines([Record(OutputHeader)]) == 0 by {
      assert [Record(OutputHeader)][..0] == [];
    }
  }

  /** While data rows 0 to k are good, the run's output starts with the header
      and the lines for all the good rows, of which there are more than k. */
  lemma {:induction false} GoodPrefix(parse: Parser, table: seq<Row>, k: nat)
    requires table != [] && table[0] == Schema && k + 1 < |table|
    requires forall j :: 1 <= j <= k + 1 ==> RowOk(parse, table[j])
    ensures var rows := table[1..];
      && k < FirstBad(parse, rows)
      && [Record(OutputHeader)] + GoodLines(parse, rows, FirstBad(parse, rows))
         <= Report(parse, table).written
  {
    var rows := table[1..];
    assert forall j :: 0 <= j <= k ==> rows[j] == table[j + 1];
  }

  /** Output order: while data rows 0 to k are good, row k's record sits at
      line 1 + k + Boundaries(rows, k + 1), after the header. Whatever happens
      to later rows does not change this. */
  lemma {:induction false} RecordPosition(parse: Parser, table: seq<Row>, k: nat)
    requires table != [] && table[0] == Schema && k + 1 < |table|
    requires forall j :: 1 <= j <= k + 1 ==> RowOk(parse, table[j])
    ensures var rows, out := table[1..], Report(parse, table).written;
      var p := 1 + k + Boundaries(rows, k + 1);
      p < |out| && out[p] == Record(Fields(parse, rows[k]))
  {
    var rows := table[1..];
    GoodPrefix(parse, table, k);
    var n := FirstBad(parse, rows);
    var c, p := GoodLines(parse, rows, n), k + Boundaries(rows, k + 1);
    GroupedRecordAt(rows, GoodRecords(parse, rows, n), n, k);
    GoodRecordAt(parse, rows, n, k);
    assert c[p] == Record(Fields(parse, rows[k]));
    assert Report(parse, table).written[1 + p] == c[p];
  }

  /** While data rows 0 to k are good, the line just before row k's record is
      a `\hline` exactly when the row starts a new group. */
  lemma {:induction false} SeparatorPosition(parse: Parser, table: seq<Row>, k: nat)
    requires table != [] && table[0] == Schema && k + 1 < |table|
    requires forall j :: 1 <= j <= k + 1 ==> RowOk(parse, table[j])
    ensures var rows, out := table[1..], Report(parse, table).written;
      var p := 1 + k + Boundaries(rows, k + 1);
      p < |out| && (Boundary(rows, k) <==> out[p - 1] == HLine)
  {
    var rows := table[1..];
    GoodPrefix(parse, table, k);
    var n := FirstBad(parse, rows);
    GroupedSeparatorAt(rows, GoodRecords(parse, rows, n), n, k);
    var out, c, p := Report(parse, table).written, GoodLines(parse, rows, n), k + Boundaries(rows, k + 1);
    if p == 0 {
      assert out[p] == Record(OutputHeader);
    } else {
      assert out[p] == c[p - 1];
    }
  }

  /** Lines already written are never taken back: the output of a table is
      a prefix of the output of any longer table with the same start, and
      once a run has stopped with an error, further rows change nothing. */
  lemma {:induction false} OutputNeverRetracted(parse: Parser, table: seq<Row>, more: seq<Row>)
    ensures Report(parse, table).written <= Report(parse, table + more).written
    ensures table != [] && Report(parse, table).error.Some? ==>
      Report(parse, table + more) == Report(parse, table)
  {
    if table != [] {
      assert (table + more)[0] == table[0];
      assert (table + more)[1..] == table[1..] + more;
      RowsNeverRetracted(parse, table[1..], more);
    }
  }

  /** When data row k stops a run, everything a run over the header and the
      k rows before it writes is still written, and that shorter run
      succeeds. */
  lemma {:induction false} AbortKeepsEarlierLines(parse: Parser, table: seq<Row>, k: nat, fault: RowFault)
    requires Report(parse, table).error == Some(BadRow(k, fault))
    ensures k + 1 < |table|
    ensures Report(parse, table[..k + 1]).error == None
    ensures Report(parse, table[..k + 1]).written <= Report(parse, table).written
  {
    StopsAtFirstBadRow(parse, table, k, fault);
    var head := table[..k + 1];
    SucceedsExactly(parse, head);
    assert head + table[k + 1..] == table;
    OutputNeverRetracted(parse, head, table[k + 1..]);
  }

  /** The first data row gets a `\hline` unless its treatment is empty. */
  lemma FirstRowSeparator(rows: seq<Row>)
    requires rows != [] && rows[0] != []
    ensures Boundary(rows, 0) <==> Relabel(rows[0][0]) != ""
  {
  }

  /** Groups are told apart by display name: a PrivateSharedRank0 row
      followed by a FreqConscious row gets no `\hline` between them, since
      both show as FreqConscious. */
  lemma ComparesDisplayNames(rows: seq<Row>)
    requires |rows| >= 2 && rows[0] != [] && rows[1] != []
    requires rows[0][0] == "PrivateSharedRank0" && rows[1][0] == "FreqConscious"
    ensures !Boundary(rows, 1)
  {
    RelabelTable(rows[1][0]);
  }
}
