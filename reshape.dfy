/**
 The table-shaping body of `scrape_reliance_data` (task6.py:41-72): from the
 texts of the profit-and-loss table's cells to the DataFrame the function
 returns, one row per reporting period and one column per metric. Fetching the
 page and locating the table are not part of this model; the page arrives as
 the texts of its cells.
 */
module Reshape {
  import opened Strings
  import opened Cells
  import opened Frames

  /** What the profit-and-loss table yields: the text of every `th`, and for
      every `tr` the texts of its `td` cells, as they stand in the HTML. */
  datatype Page = Page(headers: seq<string>, trs: seq<seq<string>>)

  /** `[x.strip() for x in xs]` */
  function StripAll(xs: seq<string>): (r: seq<string>)
    ensures |r| == |xs|
  {
    seq(|xs|, i requires 0 <= i < |xs| => Strip(xs[i]))
  }

  /** `rows[1:]`: every `tr` but the first, which holds the headers. */
  function Body(trs: seq<seq<string>>): seq<seq<string>> {
    if trs == [] then [] else trs[1..]
  }

  /** The rows lines 44-50 keep: stripped, and with one cell per header. */
  function Accepted(width: nat, trs: seq<seq<string>>): (r: seq<seq<string>>)
    ensures forall i :: 0 <= i < |r| ==> |r[i]| == width
  {
    if trs == [] then []
    else (if |trs[0]| == width then [StripAll(trs[0])] else []) + Accepted(width, trs[1..])
  }

  /** The rows line 50 reports as mismatched. */
  function Mismatched(width: nat, trs: seq<seq<string>>): (r: seq<seq<string>>)
    ensures forall i :: 0 <= i < |r| ==> |r[i]| != width
  {
    if trs == [] then []
    else (if |trs[0]| == width then [] else [StripAll(trs[0])]) + Mismatched(width, trs[1..])
  }

  /** Filtering a concatenation filters each part: the kept rows keep their order. */
  lemma {:induction false} AcceptedAppend(width: nat, a: seq<seq<string>>, b: seq<seq<string>>)
    ensures Accepted(width, a + b) == Accepted(width, a) + Accepted(width, b)
  {
    if a != [] {
      AcceptedAppend(width, a[1..], b);
      assert (a + b)[1..] == a[1..] + b;
    } else {
      assert a + b == b;
    }
  }

  /** The same for the reported rows. */
  lemma {:induction false} MismatchedAppend(width: nat, a: seq<seq<string>>, b: seq<seq<string>>)
    ensures Mismatched(width, a + b) == Mismatched(width, a) + Mismatched(width, b)
  {
    if a != [] {
      MismatchedAppend(width, a[1..], b);
      assert (a + b)[1..] == a[1..] + b;
    } else {
      assert a + b == b;
    }
  }


  /** One more row of the loop at lines 44-50 either extends the kept rows or
      the reported ones. */
  lemma AcceptedStep(width: nat, rows: seq<seq<string>>, i: nat)
    requires i < |rows|
    ensures Accepted(width, rows[..i + 1]) ==
              Accepted(width, rows[..i]) + (if |rows[i]| == width then [StripAll(rows[i])] else [])
    ensures Mismatched(width, rows[..i + 1]) ==
              Mismatched(width, rows[..i]) + (if |rows[i]| == width then [] else [StripAll(rows[i])])
  {
    AcceptedAppend(width, rows[..i], [rows[i]]);
    MismatchedAppend(width, rows[..i], [rows[i]]);
    assert rows[..i + 1] == rows[..i] + [rows[i]];
  }

  /** Every row is either kept or reported: kept plus mismatched is all of them. */
  lemma {:induction false} AcceptedCount(width: nat, trs: seq<seq<string>>)
    ensures |Accepted(width, trs)| + |Mismatched(width, trs)| == |trs|
  {
    if trs != [] {
      AcceptedCount(width, trs[1..]);
    }
  }

  /** A row is kept exactly when it is a stripped row with one cell per header. */
  lemma {:induction false} AcceptedMembers(width: nat, trs: seq<seq<string>>, row: seq<string>)
    ensures row in Accepted(width, trs) <==>
              exists i :: 0 <= i < |trs| && |trs[i]| == width && row == StripAll(trs[i])
  {
    if trs != [] {
      AcceptedMembers(width, trs[1..], row);
      assert forall i :: 1 <= i < |trs| ==> trs[i] == trs[1..][i - 1];
      if exists i :: 0 <= i < |trs| && |trs[i]| == width && row == StripAll(trs[i]) {
        var i :| 0 <= i < |trs| && |trs[i]| == width && row == StripAll(trs[i]);
        if i > 0 { assert trs[1..][i - 1] == trs[i]; }
      }
      if row in Accepted(width, trs[1..]) {
        var i :| 0 <= i < |trs[1..]| && |trs[1..][i]| == width && row == StripAll(trs[1..][i]);
        assert trs[i + 1] == trs[1..][i];
      }
    }
  }

  /** Lines 44-50: keep the rows after the first whose cell count equals the
      header count; the others are reported (line 50) and dropped. */
  method FilterRows(headers: seq<string>, trs: seq<seq<string>>)
    returns (rowData: seq<seq<string>>, skipped: seq<seq<string>>)
    ensures rowData == Accepted(|headers|, Body(trs))
    ensures skipped == Mismatched(|headers|, Body(trs))
    ensures |trs| > 0 ==> |rowData| + |skipped| == |trs| - 1
  {
    var rows := Body(trs);
    rowData, skipped := [], [];
    for i := 0 to |rows|
      invariant rowData == Accepted(|headers|, rows[..i])
      invariant skipped == Mismatched(|headers|, rows[..i])
    {
      var cols := StripAll(rows[i]);
      if |cols| == |headers| {
        rowData := rowData + [cols];
      } else {
        skipped := skipped + [cols];
      }
      AcceptedStep(|headers|, rows, i);
    }
    assert rows[..|rows|] == rows;
    AcceptedCount(|headers|, rows);
  }

  /** `df.rename(columns={'Narration': 'Year', 'Year': 'year'})` on one name. */
  function RenameLabel(h: string): string {
    if h == "Narration" then "Year" else if h == "Year" then "year" else h
  }

  /** Lines 53-54: the first column is named `Year` and then renamed `year`; the
      period headers go through the same renaming. */
  function IndexLabels(headers: seq<string>): (labels: seq<string>)
    requires |headers| >= 1
    ensures |labels| == |headers| && labels[0] == "year"
  {
    assert RenameLabel("Year") == "year";
    [RenameLabel("Year")] + seq(|headers| - 1, j requires 0 <= j < |headers| - 1 => RenameLabel(headers[j + 1]))
  }

  /** Lines 55-60: transpose, take the first row (the row labels, under the
      first column's name) stripped as the column names, and drop it. */
  function Transposed(labels: seq<string>, rows: seq<seq<string>>): (t: Table)
    requires |labels| >= 1
    requires forall r :: 0 <= r < |rows| ==> |rows[r]| == |labels|
    ensures Shaped(t) && |t.names| == |rows| + 1 && |t.rows| == |labels| - 1
  {
    Table(
      seq(|rows| + 1, c requires 0 <= c < |rows| + 1 => Strip(if c == 0 then labels[0] else rows[c - 1][0])),
      seq(|labels| - 1, j requires 0 <= j < |labels| - 1 =>
        seq(|rows| + 1, c requires 0 <= c < |rows| + 1 =>
          Text(if c == 0 then labels[j + 1] else rows[c - 1][j + 1]))))
  }

  /** Line 61: a blank name becomes `Unknown`. */
  function BlankToUnknown(name: string): string {
    if name == "" then "Unknown" else name
  }

  /** Line 66: spaces become `_`, `+` is deleted, the ends are stripped. */
  function SanitiseName(name: string): string {
    Strip(Without(ReplaceChar(name, ' ', '_'), '+'))
  }

  /** A sanitised name has no space and no `+`, no whitespace at its ends, and
      no character that was not in the name apart from `_`. */
  lemma SanitiseNameSpec(name: string)
    ensures ' ' !in SanitiseName(name) && '+' !in SanitiseName(name) && Trimmed(SanitiseName(name))
    ensures forall c :: c in SanitiseName(name) ==> c == '_' || c in name
  {
    var u := ReplaceChar(name, ' ', '_');
    WithoutSpec(u, '+');
    StripChars(Without(u, '+'));
    assert ' ' !in u;
    assert forall c :: c in u ==> c == '_' || c in name;
  }

  /** Lines 64-67: sanitise every column name, in order. */
  method SanitiseNames(names: seq<string>) returns (cleaned: seq<string>)
    ensures |cleaned| == |names|
    ensures forall i :: 0 <= i < |names| ==> cleaned[i] == SanitiseName(names[i])
  {
    cleaned := [];
    for i := 0 to |names|
      invariant |cleaned| == i
      invariant forall k :: 0 <= k < i ==> cleaned[k] == SanitiseName(names[k])
    {
      var name := SanitiseName(names[i]);
      cleaned := cleaned + [name];
    }
  }

  /** The column name a metric's row label ends up with (lines 58, 61, 64-68). */
  function MetricName(rowLabel: string): string {
    SanitiseName(BlankToUnknown(Strip(rowLabel)))
  }

  /** Line 62: an empty cell becomes 0. */
  function EmptyToZero(s: string): Cell {
    if s == "" then Zero else Text(s)
  }

  /** The cells under header `j`, one per metric, emptied cells made 0 (line 62)
      and then passed through `clean` (`clean_data` at lines 69-70). */
  function MetricCells(rows: seq<seq<string>>, j: nat, clean: Cell -> Cell): (cells: seq<Cell>)
    requires forall r :: 0 <= r < |rows| ==> j < |rows[r]|
    ensures |cells| == |rows|
  {
    seq(|rows|, r requires 0 <= r < |rows| => clean(EmptyToZero(rows[r][j])))
  }

  /** The output row for the period under header `j`: its label, then for every
      metric the cell under that header, emptied cells made 0 and then cleaned. */
  function PeriodRow(labels: seq<string>, rows: seq<seq<string>>, j: nat, clean: Cell -> Cell): (row: seq<Cell>)
    requires j < |labels|
    requires forall r :: 0 <= r < |rows| ==> |rows[r]| == |labels|
    ensures |row| == |rows| + 1
  {
    [EmptyToZero(labels[j])] + MetricCells(rows, j, clean)
  }

  /** What `scrape_reliance_data` needs to reach its return: at least one header,
      and at least one row with one cell per header. */
  predicate Reshapeable(p: Page) {
    |p.headers| >= 1 && KeptRows(p) != []
  }

  /** The rows lines 44-50 keep (the stripped headers are as many as the headers). */
  function KeptRows(p: Page): seq<seq<string>> {
    Accepted(|p.headers|, Body(p.trs))
  }

  /** The stripped headers under the names lines 53-54 give them. */
  function Labels(p: Page): (labels: seq<string>)
    requires |p.headers| >= 1
    ensures |labels| == |p.headers| && labels[0] == "year"
  {
    IndexLabels(StripAll(p.headers))
  }

  /** One row per period header after the first, before the TTM row is dropped. */
  function PeriodRows(p: Page): (rows: seq<seq<Cell>>)
    requires |p.headers| >= 1
    ensures |rows| == |p.headers| - 1
    ensures forall i :: 0 <= i < |rows| ==> |rows[i]| == |KeptRows(p)| + 1
  {
    var labels, kept := Labels(p), KeptRows(p);
    seq(|labels| - 1, j requires 0 <= j < |labels| - 1 => PeriodRow(labels, kept, j + 1, CleanData))
  }

  lemma PeriodRowAt(p: Page, j: nat)
    requires |p.headers| >= 1 && j < |p.headers| - 1
    ensures PeriodRows(p)[j] == PeriodRow(Labels(p), KeptRows(p), j + 1, CleanData)
  {
  }

  /** The `year` column as lines 58-62 leave it: the period labels, an empty one as 0. */
  function PeriodLabels(p: Page): (cells: seq<Cell>)
    requires |p.headers| >= 1
    ensures |cells| == |p.headers| - 1
  {
    var labels := Labels(p);
    seq(|labels| - 1, j requires 0 <= j < |labels| - 1 => EmptyToZero(labels[j + 1]))
  }

  /** The table lines 41-72 return, stated at once: a `year` column followed by
      one column per kept row, named after that row's label; then one row per
      period header after the first, the `TTM` period left out. */
  function Reshaped(p: Page): (t: Table)
    requires Reshapeable(p)
    ensures Shaped(t)
  {
    DroppedShaped(p);
    Table(ColumnNames(p), DropWhereFirst(PeriodRows(p), Text("TTM")))
  }

  /** Dropping rows keeps every remaining row one cell per column. */
  lemma DroppedShaped(p: Page)
    requires |p.headers| >= 1
    ensures Shaped(Table(ColumnNames(p), DropWhereFirst(PeriodRows(p), Text("TTM"))))
  {
    var rows := DropWhereFirst(PeriodRows(p), Text("TTM"));
    DropWhereFirstMembers(PeriodRows(p), Text("TTM"));
    forall i | 0 <= i < |rows|
      ensures |rows[i]| == |ColumnNames(p)|
    {
      assert rows[i] in PeriodRows(p);
    }
  }

  /** `year`, then one name per kept row, from that row's label. */
  function ColumnNames(p: Page): (names: seq<string>)
    requires |p.headers| >= 1
    ensures |names| == |KeptRows(p)| + 1
  {
    FinalNames(Labels(p), KeptRows(p))
  }

  /** Lines 62-63 on a whole table: empty texts and missing cells become 0. */
  function Filled(t: Table): Table {
    ReplaceCells(ReplaceCells(t, Text(""), Zero), Missing, Zero)
  }

  /** The names lines 58-68 give the columns of a transposed table. */
  function FinalNames(labels: seq<string>, rows: seq<seq<string>>): (ns: seq<string>)
    requires |labels| >= 1
    requires forall r :: 0 <= r < |rows| ==> |rows[r]| == |labels|
    ensures |ns| == |rows| + 1
  {
    var t := Transposed(labels, rows);
    seq(|t.names|, c requires 0 <= c < |t.names| => SanitiseName(BlankToUnknown(t.names[c])))
  }

  /** `year` passes the blank fix and the sanitising unchanged. */
  lemma YearName(s: string)
    requires s == "year"
    ensures MetricName(s) == s
  {
    PlainName(s);
    assert Strip(s) == s;
    SanitisedUnchanged(s);
  }

  /** `year` and `Unknown` have no space, no `+` and no whitespace at their ends. */
  lemma PlainName(s: string)
    requires s == "year" || s == "Unknown"
    ensures ' ' !in s && '+' !in s && Trimmed(s)
  {
  }

  /** A name with no space, no `+` and trimmed ends passes the sanitising unchanged. */
  lemma SanitisedUnchanged(name: string)
    requires ' ' !in name && '+' !in name && Trimmed(name)
    ensures SanitiseName(name) == name
  {
    var u := ReplaceChar(name, ' ', '_');
    assert u == name;
    WithoutSpec(u, '+');
  }

  /** Column `c` of the transposed table, blank-fixed and sanitised, is named
      after the first header (`c == 0`) or after kept row `c - 1`'s label. */
  lemma FinalNameAt(labels: seq<string>, rows: seq<seq<string>>, c: nat)
    requires |labels| >= 1
    requires forall r :: 0 <= r < |rows| ==> |rows[r]| == |labels|
    requires c < |rows| + 1
    ensures c == 0 ==> FinalNames(labels, rows)[c] == MetricName(labels[0])
    ensures c > 0 ==> FinalNames(labels, rows)[c] == MetricName(rows[c - 1][0])
  {
    assert Transposed(labels, rows).names[c] == Strip(if c == 0 then labels[0] else rows[c - 1][0]);
  }

  lemma MetricCell(rows: seq<seq<string>>, j: nat, clean: Cell -> Cell, r: nat)
    requires r < |rows|
    requires forall r :: 0 <= r < |rows| ==> j < |rows[r]|
    ensures MetricCells(rows, j, clean)[r] == clean(EmptyToZero(rows[r][j]))
  {
  }

  lemma PeriodShift(labels: seq<string>, rows: seq<seq<string>>, j: nat, clean: Cell -> Cell, c: nat)
    requires j < |labels| && 0 < c <= |rows|
    requires forall r :: 0 <= r < |rows| ==> |rows[r]| == |labels|
    ensures PeriodRow(labels, rows, j, clean)[c] == MetricCells(rows, j, clean)[c - 1]
  {
  }

  lemma PeriodLabel(labels: seq<string>, rows: seq<seq<string>>, j: nat, clean: Cell -> Cell)
    requires j < |labels|
    requires forall r :: 0 <= r < |rows| ==> |rows[r]| == |labels|
    ensures PeriodRow(labels, rows, j, clean)[0] == EmptyToZero(labels[j])
  {
  }

  /** Lines 62-63 turn each transposed cell into its text, or 0 when it is empty. */
  lemma FilledCell(labels: seq<string>, rows: seq<seq<string>>, ns: seq<string>, j: nat, c: nat)
    requires |labels| >= 1
    requires forall r :: 0 <= r < |rows| ==> |rows[r]| == |labels|
    requires j < |labels| - 1 && c < |rows| + 1
    ensures Filled(Table(ns, Transposed(labels, rows).rows)).rows[j][c] ==
              EmptyToZero(if c == 0 then labels[j + 1] else rows[c - 1][j + 1])
  {
    var t0 := Table(ns, Transposed(labels, rows).rows);
    var t1 := ReplaceCells(t0, Text(""), Zero);
    assert t0.rows[j][c] == Text(if c == 0 then labels[j + 1] else rows[c - 1][j + 1]);
    assert t1.rows[j][c] == t0.rows[j][c] || t1.rows[j][c] == Zero;
  }

  /** After lines 62-63 and 69-70, row `j` of the transposed table is the period
      row of header `j + 1`. */
  lemma RowsMatch(labels: seq<string>, rows: seq<seq<string>>, ns: seq<string>, clean: Cell -> Cell)
    requires |labels| >= 1
    requires forall r :: 0 <= r < |rows| ==> |rows[r]| == |labels|
    requires |ns| == |rows| + 1
    ensures AppliedBelow(Filled(Table(ns, Transposed(labels, rows).rows)).rows, |ns|, clean) ==
              seq(|labels| - 1, j requires 0 <= j < |labels| - 1 => PeriodRow(labels, rows, j + 1, clean))
  {
    var t := Filled(Table(ns, Transposed(labels, rows).rows));
    var lhs := AppliedBelow(t.rows, |ns|, clean);
    var rhs := seq(|labels| - 1, j requires 0 <= j < |labels| - 1 => PeriodRow(labels, rows, j + 1, clean));
    forall j | 0 <= j < |labels| - 1
      ensures lhs[j] == rhs[j]
    {
      forall c | 0 <= c < |ns|
        ensures lhs[j][c] == rhs[j][c]
      {
        FilledCell(labels, rows, ns, j, c);
        if c > 0 {
          PeriodShift(labels, rows, j + 1, clean, c);
          MetricCell(rows, j + 1, clean, c - 1);
        } else {
          PeriodLabel(labels, rows, j + 1, clean);
        }
      }
    }
  }

  /** Lines 41-72: the table `scrape_reliance_data` builds from the page,
      reshaped step by step in a DataFrame. */
  method ReshapeTable(p: Page) returns (df: Frame)
    requires Reshapeable(p)
    ensures fresh(df) && df.Value() == Reshaped(p)
  {
    var headers := StripAll(p.headers);
    var rowData, skipped := FilterRows(headers, p.trs);
    var labels := IndexLabels(headers);
    df := new Frame(Transposed(labels, rowData));
    var transposedNames := df.names;
    var blankFixed := seq(|transposedNames|, c requires 0 <= c < |transposedNames| => BlankToUnknown(transposedNames[c]));
    df.SetNames(blankFixed);
    df.Replace(Text(""), Zero);
    df.Replace(Missing, Zero);
    var cleaned := SanitiseNames(df.names);
    df.SetNames(cleaned);
    assert rowData == KeptRows(p) && labels == Labels(p);
    assert cleaned == FinalNames(labels, rowData);
    assert df.Value() == Filled(Table(cleaned, Transposed(labels, rowData).rows));
    df.ApplyToAllButFirst(CleanData);
    RowsMatch(labels, rowData, cleaned, CleanData);
    df.DropRowsWhereFirstIs(Text("TTM"));
  }

  /** Cells of a period row: the label first, then under each metric its cell
      for this period, emptied to 0 and passed through `clean`. */
  lemma PeriodRowCells(labels: seq<string>, rows: seq<seq<string>>, j: nat, clean: Cell -> Cell)
    requires j < |labels|
    requires forall r :: 0 <= r < |rows| ==> |rows[r]| == |labels|
    ensures PeriodRow(labels, rows, j, clean)[0] == EmptyToZero(labels[j])
    ensures forall r :: 0 <= r < |rows| ==>
              PeriodRow(labels, rows, j, clean)[r + 1] == clean(EmptyToZero(rows[r][j]))
  {
    PeriodLabel(labels, rows, j, clean);
    forall r | 0 <= r < |rows|
      ensures PeriodRow(labels, rows, j, clean)[r + 1] == clean(EmptyToZero(rows[r][j]))
    {
      PeriodShift(labels, rows, j, clean, r + 1);
      MetricCell(rows, j, clean, r);
    }
  }

  lemma PeriodRowsFirst(p: Page)
    requires |p.headers| >= 1
    ensures FirstColumn(PeriodRows(p)) == PeriodLabels(p)
  {
    var rows := PeriodRows(p);
    forall j | 0 <= j < |rows|
      ensures FirstColumn(rows)[j] == PeriodLabels(p)[j]
    {
      PeriodLabel(Labels(p), KeptRows(p), j + 1, CleanData);
    }
  }

  /** Lines 69-72: the reshaped table is rectangular and starts with the `year`
      column, followed by one column per kept row. That column holds the period
      labels in header order, never passed through `clean_data`, with every
      `TTM` period taken out; the rows are the periods after the first header,
      fewer by the number of `TTM` labels. */
  lemma ReshapedYear(p: Page)
    requires Reshapeable(p)
    ensures Shaped(Reshaped(p))
    ensures |Reshaped(p).names| == |KeptRows(p)| + 1 && Reshaped(p).names[0] == "year"
    ensures ColumnOf(Reshaped(p), "year") == DropCell(PeriodLabels(p), Text("TTM"))
    ensures Text("TTM") !in ColumnOf(Reshaped(p), "year")
    ensures |Reshaped(p).rows| + Occurrences(PeriodLabels(p), Text("TTM")) == |p.headers| - 1
  {
    var t := Reshaped(p);
    var all := PeriodRows(p);
    DropWhereFirstColumn(all, Text("TTM"));
    PeriodRowsFirst(p);
    DropCellCount(PeriodLabels(p), Text("TTM"));
    ColumnNameYear(p);
    UniqueIndex(t.names, "year", 0);
    assert ColumnOf(t, "year") == FirstColumn(t.rows);
  }

  /** The name a row label becomes has no space, no `+` and no whitespace at
      either end; a blank label becomes `Unknown`. */
  lemma MetricNameSpec(rowLabel: string)
    ensures ' ' !in MetricName(rowLabel) && '+' !in MetricName(rowLabel) && Trimmed(MetricName(rowLabel))
    ensures Strip(rowLabel) == "" ==> MetricName(rowLabel) == "Unknown"
  {
    SanitiseNameSpec(BlankToUnknown(Strip(rowLabel)));
    UnknownName("Unknown");
  }

  /** Lines 58-68: after the leading `year`, column `r + 1` is named after kept
      row `r`'s label, blank labels as `Unknown`. No name has a space, a `+` or
      whitespace at either end. */
  lemma ReshapedNames(p: Page)
    requires Reshapeable(p)
    ensures |Reshaped(p).names| == |KeptRows(p)| + 1 && Reshaped(p).names[0] == "year"
    ensures forall c :: 0 <= c < |Reshaped(p).names| ==>
              ' ' !in Reshaped(p).names[c] && '+' !in Reshaped(p).names[c] && Trimmed(Reshaped(p).names[c])
    ensures forall r :: 0 <= r < |KeptRows(p)| ==> Reshaped(p).names[r + 1] == MetricName(KeptRows(p)[r][0])
    ensures forall r :: 0 <= r < |KeptRows(p)| && Strip(KeptRows(p)[r][0]) == "" ==>
              Reshaped(p).names[r + 1] == "Unknown"
  {
    assert Reshaped(p).names == ColumnNames(p);
    ColumnNameYear(p);
    ColumnNamesSpec(p);
  }

  lemma ColumnNamesSpec(p: Page)
    requires |p.headers| >= 1
    ensures forall c :: 0 <= c < |ColumnNames(p)| ==>
              ' ' !in ColumnNames(p)[c] && '+' !in ColumnNames(p)[c] && Trimmed(ColumnNames(p)[c])
    ensures forall r :: 0 <= r < |KeptRows(p)| ==> ColumnNames(p)[r + 1] == MetricName(KeptRows(p)[r][0])
    ensures forall r :: 0 <= r < |KeptRows(p)| && Strip(KeptRows(p)[r][0]) == "" ==>
              ColumnNames(p)[r + 1] == "Unknown"
  {
    ColumnNameYear(p);
    ColumnNameAt(p);
    var names := ColumnNames(p);
    forall c | 0 <= c < |names|
      ensures ' ' !in names[c] && '+' !in names[c] && Trimmed(names[c])
    {
      if c == 0 {
        YearName(names[0]);
        MetricNameSpec(names[0]);
      } else {
        MetricNameSpec(KeptRows(p)[c - 1][0]);
      }
    }
    forall r | 0 <= r < |KeptRows(p)| && Strip(KeptRows(p)[r][0]) == ""
      ensures names[r + 1] == "Unknown"
    {
      MetricNameSpec(KeptRows(p)[r][0]);
    }
  }

  lemma ColumnNameYear(p: Page)
    requires |p.headers| >= 1
    ensures ColumnNames(p)[0] == "year"
  {
    var labels := Labels(p);
    FinalNameAt(labels, KeptRows(p), 0);
    YearName(labels[0]);
  }

  lemma ColumnNameAt(p: Page)
    requires |p.headers| >= 1
    ensures forall r :: 0 <= r < |KeptRows(p)| ==> ColumnNames(p)[r + 1] == MetricName(KeptRows(p)[r][0])
  {
    var labels, kept := Labels(p), KeptRows(p);
    forall r | 0 <= r < |kept|
      ensures ColumnNames(p)[r + 1] == MetricName(kept[r][0])
    {
      FinalNameAt(labels, kept, r + 1);
    }
  }


  /** Line 72: a row survives exactly when it is one of the period rows and its
      label is not `TTM`. */
  lemma ReshapedRows(p: Page)
    requires Reshapeable(p)
    ensures forall row :: row in Reshaped(p).rows <==> row in PeriodRows(p) && row[0] != Text("TTM")
  {
    DropWhereFirstMembers(PeriodRows(p), Text("TTM"));
  }

  /** `Unknown` passes the sanitising unchanged. */
  lemma UnknownName(s: string)
    requires s == "Unknown"
    ensures SanitiseName(s) == s
  {
    PlainName(s);
    SanitisedUnchanged(s);
  }

  /** Line 66 on a label with a space and a plus: `"Sales +"` becomes `"Sales_"`. */
  lemma SanitiseSalesPlus(s: string)
    requires s == "Sales +"
    ensures SanitiseName(s) == "Sales_"
  {
    var u := ReplaceChar(s, ' ', '_');
    assert u == "Sales_+";
    SalesWithoutPlus(u);
    assert Trimmed("Sales_");
  }

  lemma SalesWithoutPlus(u: string)
    requires u == "Sales_+"
    ensures Without(u, '+') == "Sales_"
  {
    assert u == "Sales_" + "+";
    WithoutSpec("Sales_", '+');
    WithoutAppend("Sales_", "+", '+');
  }

  /** The `year` column is not cleaned: the label `Mar 2022` keeps its space,
      which `clean_data` would delete. */
  lemma YearLabelKept(s: string)
    requires s == "Mar 2022"
    ensures EmptyToZero(s) == Text("Mar 2022")
    ensures CleanData(EmptyToZero(s)) != EmptyToZero(s)
  {
    CleanDataLabel(s);
  }
}
