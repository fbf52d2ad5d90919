# multidensity-table, modelled in Dafny

`src/Scripts/multidensity-table.py` turns a benchmark table into rows of a LaTeX
`tabular`. The table has a header line and data rows of `Treatment, Density, Bytes, QPS`.
The script:

- checks that the header is exactly `Treatment, Density, Bytes, QPS`;
- rewrites the header to `Treatment, Density, Size (MB), kQPS, DQ\\`;
- for each data row:
  - relabels three treatment names for display;
  - prints a bare `\hline` whenever the (relabelled) treatment differs from the last one seen;
  - replaces Bytes and QPS by three formatted figures:
    - the size in MB (`Bytes * 651587 / 1000000`);
    - the kQPS (`QPS / 1000`);
    - the DQ (`QPS / size`, using the unrounded size), which also gets the LaTeX row terminator `\\`.

  Each figure is formatted with Python's `"{0:.0f}"`.

Every record goes to standard output through an `&`-delimited csv writer.
The run stops at the first row that raises, and whatever it already printed stays printed.

The project has three modules:

- `PyFormat` (`pyformat.dfy`): `"{0:.0f}".format(x)` on exact reals.
  - It rounds half to even.
  - It writes decimal digits without leading zeros.
  - It writes a minus sign for every negative value, so values in (-0.5, 0) come out as `-0`.
  - It proves what the digits mean.
- `MultidensityTable` (`multidensity_table.dfy`): the script itself.
  - Data: the header gate and the header rewrite, the relabel table, the reshaping of one row and the faults it can raise.
  - Imperative model: `Run`, `WriteRows`, `WriteRow`, `ProcessRow` and `ReshapeRow`. `WriteRows` is the loop that keeps `last_treatment`. `ReshapeRow` makes the in-place field edits in the source's order.
  - Specification: the closed-form function `Report`. It says what a run writes and how it ends. `Run` is proved equal to it.
- `TableProperties` (`table_properties.dfy`): properties of `Report`:
  - which tables are accepted;
  - at which row a run stops;
  - how many `\hline` lines it writes;
  - where each record lands;
  - output is never taken back.

Modelling choices:

- Standard output is the sequence of `Line`s written so far: `HLine` for the bare `\hline` print, `Record(fields)` for a csv record. A run's result is that sequence plus an optional error.
- The input is the table after csv splitting: a header and data rows, each a sequence of strings.
- Python's `float()` is a parameter `parse: string -> Option<real>`. `None` stands for the `ValueError` it raises.
- The errors a run can end with:
  - `EmptyInput`: `next(reader)` raises `StopIteration` on an empty file;
  - `SchemaMismatch`: the header `assert` fails;
  - `BadRow(k, MissingField)`: `IndexError` in data row `k`;
  - `BadRow(k, NotANumber(field))`: `ValueError` from `float()`;
  - `BadRow(k, ZeroSize)`: `ZeroDivisionError` when the size in MB is zero.
- Rows of any length are modelled, because the script indexes fields from the end:
  - an empty row fails at `row[0]` before any `\hline`;
  - a one-field row gets its `\hline` and then fails at `row[-2]`;
  - in a two-field row the (relabelled) treatment is read as Bytes.
- A failing row's faults are checked in the source's order: Bytes is parsed first, then QPS, and only then is the division by the size done.

Behaviour of the code worth stating:

- Groups are compared by display name. `last_treatment` holds the relabelled name, so a `PrivateSharedRank0` row followed by a `FreqConscious` row gets no `\hline` between them.
- Each output record has five fields: the two passthrough fields, size, kQPS and DQ.
- Rounding is half to even, as Python's format does.
- In the worked example (Bytes 1000.0, QPS 2000000) the size is 651.587 MB and is shown as `652`. The DQ is `3069` because it divides by the unrounded size; dividing by 652 would give `3067`.

## Model

| member | source | states |
|---|---|---|
| MultidensityTable.Run | src/Scripts/multidensity-table.py:11-60 | Each run writes exactly what `Report` says and ends with exactly the error `Report` gives. |
| MultidensityTable.WriteRows | src/Scripts/multidensity-table.py:24-60 | The loop over the data rows, with `last_treatment` starting at "", writes the lines and stops with the error that `RowsReport` gives. |
| MultidensityTable.WriteRow | src/Scripts/multidensity-table.py:38-60 | One pass of the loop body. It either stops the run, having written everything the run writes, or extends the lines of the first k rows to those of the first k+1. In the second case it leaves row k's treatment as the remembered one. |
| MultidensityTable.ProcessRow | src/Scripts/multidensity-table.py:38-59 | For a non-empty row, an `\hline` is due exactly when the relabelled treatment differs from the last one, and that treatment is remembered. An empty row prints nothing and fails with `MissingField`. The row fails exactly when it is not `RowOk`, with that row's `Fault`, and otherwise yields its `Fields`. |
| MultidensityTable.ReshapeRow | src/Scripts/multidensity-table.py:49-59 | The in-place edits by negative index give exactly the reshaped row of `Reshape`, or exactly its fault. |
| MultidensityTable.SizeInMB | src/Scripts/multidensity-table.py:49 | The size in MB is zero exactly when Bytes is zero, which is the case that makes the division at line 51 raise. A positive Bytes gives a positive size below Bytes. |
| MultidensityTable.Check | src/Scripts/multidensity-table.py:49-51 | A row raises `IndexError` at `row[-2]` exactly when it has fewer than two fields. |
| MultidensityTable.Reshape | src/Scripts/multidensity-table.py:49-52 | A reshaped row has one field more than its input, because DQ is appended. |
| MultidensityTable.ReshapeFaults | src/Scripts/multidensity-table.py:49-51 | Reshaping succeeds exactly when there are at least two fields, Bytes and QPS both parse, and Bytes is not zero. It fails with `MissingField` exactly when there are fewer than two fields. With two or more fields, a bad Bytes is reported first, then a bad QPS. When both parse, the failure is `ZeroSize` exactly when Bytes is zero. |
| MultidensityTable.ReshapeFourFields | src/Scripts/multidensity-table.py:38-59 | A good four-field row has a non-zero numeric Bytes and a numeric QPS. It becomes [relabelled treatment, density, Fmt0(size), Fmt0(QPS/1000), Fmt0(QPS/size) + terminator], with size = Bytes*651587/1000000. |
| MultidensityTable.OnlyLastTerminated | src/Scripts/multidensity-table.py:51-59 | Of a good four-field row's five output fields, the DQ field ends in the terminator and the size and kQPS fields do not. |
| MultidensityTable.NoTerminator | src/Scripts/multidensity-table.py:51-57 | A formatted figure never ends in the `\\` terminator. |
| MultidensityTable.WorkedFigures | src/Scripts/multidensity-table.py:49-57 | 1000 bytes give a size of 651.587 MB, shown as 652, and 2000000 QPS shows as 2000 kQPS. The DQ 2000000/651.587 shows as 3069, whereas 2000000/652 would show as 3067. |
| MultidensityTable.WorkedExample | src/Scripts/multidensity-table.py:38-59 | The row ClassicBitsliced, 0.1, 1000.0, 2000000 is good and becomes BitslicedSignature, 0.1, 652, 2000, 3069\\. |
| MultidensityTable.RewriteHeader | src/Scripts/multidensity-table.py:16-21 | All labels but the last two are kept. Those two become "Size (MB)" and "kQPS", and "DQ" is appended with the terminator. |
| MultidensityTable.OutputHeaderShape | src/Scripts/multidensity-table.py:15-22 | The written header has five labels, starts with the input's Treatment and Density, and only its last label ends in the terminator. |
| MultidensityTable.Relabel | src/Scripts/multidensity-table.py:38-43 | A display name is never one of the three renamed raw names, and every other name is left as it is. |
| MultidensityTable.Label | src/Scripts/multidensity-table.py:38-44 | The name a row is grouped by, its relabelled first field, is never one of the renamed raw names. |
| MultidensityTable.RelabelTable | src/Scripts/multidensity-table.py:38-43 | ClassicBitsliced becomes BitslicedSignature, PrivateSharedRank0 becomes FreqConscious, Optimal becomes GeneralizedBlocked, and every other name is kept. |
| MultidensityTable.RelabelIdempotent | src/Scripts/multidensity-table.py:38-43 | No display name is itself renamed, so relabelling a relabelled name changes nothing. |
| MultidensityTable.SeparatorStep | src/Scripts/multidensity-table.py:44-46 | Given the remembered treatment, comparing it with a non-empty row's relabelled treatment decides that row's `\hline` as the closed form does. The remembered value then becomes that row's treatment. |
| MultidensityTable.Report | src/Scripts/multidensity-table.py:11-60 | Lines are written exactly when the file is not empty and the header matches, and the first of them is then the rewritten header. A reported bad row is one of the data rows. |
| MultidensityTable.RowsReport | src/Scripts/multidensity-table.py:24-60 | A pass that ends without error has only good data rows. A pass that stops names a bad data row, and every row before it is good. |
| MultidensityTable.FirstBad | src/Scripts/multidensity-table.py:25-60 | The index of the first data row that raises: every row before it is good, and the row at it (if any) is not. |
| MultidensityTable.GoodLinesStep | src/Scripts/multidensity-table.py:44-60 | A good row k extends the lines of the rows before it by its own `\hline` (if it starts a group) and its record. |
| MultidensityTable.StopsAt | src/Scripts/multidensity-table.py:25-60 | A failing row k after k good rows ends the pass. Its `\hline` is still written unless the row is empty, and its fault is reported. |
| PyFormat.RoundHalfEven | src/Scripts/multidensity-table.py:51-57 | The integer chosen is within 1/2 of the value, and it is the even neighbour on a tie. |
| PyFormat.RoundHalfEvenUnique | src/Scripts/multidensity-table.py:51-57 | Round-half-even has exactly one answer. |
| PyFormat.Decimal | src/Scripts/multidensity-table.py:51-57 | The integer numeral is never empty and starts and ends with a digit. |
| PyFormat.DecimalMeaning | src/Scripts/multidensity-table.py:51-57 | The numeral of n is a non-empty digit string without leading zeros whose value is n. |
| PyFormat.Fmt0 | src/Scripts/multidensity-table.py:51-57 | A `"{0:.0f}"` rendering is never empty and ends with a digit. |
| PyFormat.Fmt0Meaning | src/Scripts/multidensity-table.py:51-57 | "{0:.0f}" starts with '-' exactly for negative values and uses only '-' and digits. Its digits have no leading zero (only "0" starts with one) and denote the magnitude rounded half to even. |
| TableProperties.HeaderGate | src/Scripts/multidensity-table.py:11-22 | An empty file and a wrong header are reported as such and stop the run before anything is written. Otherwise the rewritten header is the first line. |
| TableProperties.StopsAtFirstBadRow | src/Scripts/multidensity-table.py:25-60 | A run stops at data row k with fault f exactly when the header matches, rows before k are good, row k is not, and f is row k's fault. |
| TableProperties.SucceedsExactly | src/Scripts/multidensity-table.py:11-60 | A run ends without error exactly when the header matches and every data row can be reshaped. |
| TableProperties.SeparatorCount | src/Scripts/multidensity-table.py:24-60 | A successful run writes one `\hline` per group start and 1 + rows + group starts lines in all. |
| TableProperties.RecordPosition | src/Scripts/multidensity-table.py:44-60 | While rows 0..k are good, row k's record is line 1 + k + (group starts among rows 0..k), whatever later rows hold. |
| TableProperties.SeparatorPosition | src/Scripts/multidensity-table.py:44-46 | While rows 0..k are good, the line before row k's record is an `\hline` exactly when row k starts a new group. |
| TableProperties.GoodPrefix | src/Scripts/multidensity-table.py:22-60 | While rows 0..k are good, the output starts with the header followed by the lines of every good row, and more than k rows are good. |
| TableProperties.RowsNeverRetracted | src/Scripts/multidensity-table.py:25-60 | The row pass over more rows writes at least what it writes over fewer. Once it has stopped, further rows change nothing. |
| TableProperties.OutputNeverRetracted | src/Scripts/multidensity-table.py:22-60 | A run's output is a prefix of the output for any table that extends it. A run that stopped with an error is unchanged by appended rows. |
| TableProperties.AbortKeepsEarlierLines | src/Scripts/multidensity-table.py:22-60 | When row k aborts the run, the run over the header and rows before k succeeds, and everything it writes is still written. |
| TableProperties.FirstRowSeparator | src/Scripts/multidensity-table.py:24-46 | Since `last_treatment` starts as "", the first data row gets an `\hline` unless its display name is empty. |
| TableProperties.ComparesDisplayNames | src/Scripts/multidensity-table.py:38-46 | A PrivateSharedRank0 row followed by a FreqConscious row gets no `\hline` between them. |
| TableProperties.GoodLinesCounts | src/Scripts/multidensity-table.py:44-60 | The lines for n good rows are n records plus one `\hline` per group start. |
| TableProperties.GroupedRecordAt | src/Scripts/multidensity-table.py:44-60 | Row k's record sits at position k + (group starts among rows 0..k) of the grouped lines. |
| TableProperties.GroupedSeparatorAt | src/Scripts/multidensity-table.py:44-46 | The grouped line before row k's record is an `\hline` exactly when row k starts a group. |
| TableProperties.GoodLinesGrow | src/Scripts/multidensity-table.py:44-60 | The lines of fewer good rows are a prefix of the lines of more. |

## Left out

- Reading the file: the hard-coded path `/tmp/multidensity-temp.csv`, opening it, and the csv reader's parsing and quoting. The model starts from the table already split into fields. A blank line appears as a row with no fields.
- Writing: the csv writer's quoting, its `\r\n` line terminator, and the rendering of a record as `&`-joined text. A record is kept as its list of fields.
- Which strings `float()` accepts (signs, exponents, `inf`, `nan`, whitespace): it is a parameter of the model.
- Binary floating point. Sizes, kQPS and DQ are exact reals, so the rounding of `* 651587 / 1000000` and of the divisions is not modelled. Infinities, NaN and negative zero cannot occur.
- The `str()`/`float()` round trip through the Bytes slot (lines 49, 51, 57) is treated as the identity. Python's shortest repr of a finite float does read back to the same float.
- `input_size` (line 8) is never used. The commented-out header check and Rank0/RankN relabelling (lines 14, 26-37, 48) are not code.
- Running under `python -O`, which drops the header `assert`, is not modelled.
- csv reader errors (oversized fields, NUL bytes) and I/O errors are not modelled.
