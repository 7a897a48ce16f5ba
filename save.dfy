/**
 The in-memory step of `save_to_postgres` (task6.py:93-95): `clean_data` once
 more on every column but the first, in place on the caller's DataFrame, then
 every missing cell filled with 0 in a new DataFrame, which is what `to_sql`
 writes. The database engine and the write itself are not part of this model.
 */
module Save {
  import opened Cells
  import opened Frames
  import opened Reshape

  /** `df.fillna(0)` */
  function FillMissing(t: Table): Table {
    ReplaceCells(t, Missing, Zero)
  }

  /** The table lines 93-95 hand to `to_sql`. */
  function Written(t: Table): Table {
    FillMissing(CleanRest(t))
  }

  /** Lines 93-95: the caller's DataFrame is cleaned in place (line 94 assigns
      its columns); the filled table is a new DataFrame (line 95 rebinds `df`). */
  method PrepareForSave(df: Frame) returns (written: Table)
    requires Shaped(df.Value())
    modifies df
    ensures df.Value() == CleanRest(old(df.Value()))
    ensures written == Written(old(df.Value()))
  {
    df.ApplyToAllButFirst(CleanData);
    var filled := new Frame(df.Value());
    filled.Replace(Missing, Zero);
    written := filled.Value();
  }

  /** Nothing missing reaches the database, and every other cell is kept. */
  lemma FillMissingSpec(t: Table)
    ensures FillMissing(t).names == t.names && |FillMissing(t).rows| == |t.rows|
    ensures forall i, c :: 0 <= i < |t.rows| && 0 <= c < |t.rows[i]| ==>
              FillMissing(t).rows[i][c] != Missing &&
              (t.rows[i][c] != Missing ==> FillMissing(t).rows[i][c] == t.rows[i][c])
  {
  }

  /** Cleaning the columns after the first a second time changes nothing. */
  lemma CleanRestIdempotent(t: Table)
    ensures CleanRest(CleanRest(t)) == CleanRest(t)
  {
    var once := CleanRest(t);
    var twice := CleanRest(once);
    forall i | 0 <= i < |t.rows|
      ensures twice.rows[i] == once.rows[i]
    {
      forall c | 1 <= c < |t.names| && c < |t.rows[i]|
        ensures CleanData(once.rows[i][c]) == once.rows[i][c]
      {
        CleanDataIdempotent(t.rows[i][c]);
      }
    }
  }

  /** Saving a saved table writes the same table again. */
  lemma WrittenIdempotent(t: Table)
    ensures Written(Written(t)) == Written(t)
  {
    var c := CleanRest(t);
    var w := FillMissing(c);
    var c2 := CleanRest(w);
    forall i | 0 <= i < |w.rows|
      ensures c2.rows[i] == w.rows[i]
    {
      forall k | 0 <= k < |w.rows[i]|
        ensures c2.rows[i][k] == w.rows[i][k]
      {
        assert c2.rows[i][k] == if 1 <= k < |w.names| then CleanData(w.rows[i][k]) else w.rows[i][k];
        if 1 <= k < |w.names| {
          CleanDataIdempotent(t.rows[i][k]);
          assert c.rows[i][k] == CleanData(t.rows[i][k]);
          assert w.rows[i][k] == if c.rows[i][k] == Missing then Zero else c.rows[i][k];
        }
      }
    }
    assert c2 == w;
    FillMissingSpec(c);
    forall i | 0 <= i < |w.rows|
      ensures FillMissing(w).rows[i] == w.rows[i]
    {
    }
  }

  /** A row that saving leaves alone: no cell missing, and every cell after the
      first kept by `f` (`clean_data` in the script). */
  predicate Settled(row: seq<Cell>, f: Cell -> Cell) {
    (forall c :: 0 <= c < |row| ==> row[c] != Missing) &&
    (forall c :: 1 <= c < |row| ==> f(row[c]) == row[c])
  }

  /** A period row built with a cleaner that keeps present values present and
      is idempotent on them is settled under that cleaner. */
  lemma PeriodRowSettles(labels: seq<string>, rows: seq<seq<string>>, j: nat, f: Cell -> Cell)
    requires j < |labels|
    requires forall r :: 0 <= r < |rows| ==> |rows[r]| == |labels|
    requires forall v :: v != Missing ==> f(v) != Missing && f(f(v)) == f(v)
    ensures Settled(PeriodRow(labels, rows, j, f), f)
  {
    PeriodRowCells(labels, rows, j, f);
    var row := PeriodRow(labels, rows, j, f);
    forall c | 1 <= c < |row|
      ensures row[c] != Missing && f(row[c]) == row[c]
    {
      assert row[(c - 1) + 1] == f(EmptyToZero(rows[c - 1][j]));
    }
  }

  lemma PeriodRowSettled(p: Page, j: nat)
    requires |p.headers| >= 1 && j < |PeriodRows(p)|
    ensures Settled(PeriodRows(p)[j], CleanData)
  {
    PeriodRowAt(p, j);
    CleanDataSettles();
    PeriodRowSettles(Labels(p), KeptRows(p), j + 1, CleanData);
  }

  /** A table whose rows are all settled under `f` comes back unchanged from
      applying `f` to the columns after the first and filling NaN with 0. */
  lemma SettledWritten(t: Table, f: Cell -> Cell)
    requires forall i :: 0 <= i < |t.rows| ==> Settled(t.rows[i], f)
    ensures FillMissing(ApplyRest(t, f)) == t
  {
    var c := ApplyRest(t, f);
    forall i | 0 <= i < |t.rows|
      ensures c.rows[i] == t.rows[i]
    {
      forall k | 0 <= k < |t.rows[i]|
        ensures c.rows[i][k] == t.rows[i][k]
      {
        assert c.rows[i][k] == if 1 <= k < |t.names| then f(t.rows[i][k]) else t.rows[i][k];
      }
    }
    assert c == t;
    forall i | 0 <= i < |t.rows|
      ensures FillMissing(t).rows[i] == t.rows[i]
    {
    }
  }

  /** Every cell of a scraped table is already in its saved form: saving it
      writes it unchanged (lines 69-70 clean what lines 93-94 clean again, and
      lines 62-63 leave nothing missing). */
  lemma SaveKeepsReshaped(p: Page)
    requires Reshapeable(p)
    ensures Written(Reshaped(p)) == Reshaped(p)
  {
    var t := Reshaped(p);
    ReshapedRows(p);
    forall i | 0 <= i < |t.rows|
      ensures Settled(t.rows[i], CleanData)
    {
      assert t.rows[i] in t.rows;
      var j :| 0 <= j < |PeriodRows(p)| && PeriodRows(p)[j] == t.rows[i];
      PeriodRowSettled(p, j);
    }
    SettledWritten(t, CleanData);
  }

  /** A column after the first whose cells are all present is written as the
      cleaned column (line 94), with nothing left for line 95 to fill. */
  lemma WrittenColumn(t: Table, n: string)
    requires Shaped(t) && n in t.names && ColumnIndex(t.names, n) > 0
    requires forall i :: 0 <= i < |t.rows| ==> ColumnOf(t, n)[i] != Missing
    ensures ColumnOf(Written(t), n) == seq(|t.rows|, i requires 0 <= i < |t.rows| => CleanData(ColumnOf(t, n)[i]))
  {
    ApplyRestColumn(t, CleanData, n);
    ReplaceColumn(CleanRest(t), Missing, Zero, n);
    forall i | 0 <= i < |t.rows|
      ensures CleanData(ColumnOf(t, n)[i]) != Missing
    {
      CleanDataMissing(ColumnOf(t, n)[i]);
    }
  }
}
