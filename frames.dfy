/**
 The part of a pandas DataFrame the scraper relies on: an ordered list of
 column names and rows of cells, the vectorised updates it applies
 (`replace`, `apply`, boolean row selection, column assignment) and `pd.concat`.
 Columns are looked up by their first occurrence.
 */
module Frames {
  import opened Cells

  /** The value of a DataFrame: column names and rows, each row one cell per column. */
  datatype Table = Table(names: seq<string>, rows: seq<seq<Cell>>)

  /** Every row has one cell per column. */
  predicate Shaped(t: Table) {
    forall i :: 0 <= i < |t.rows| ==> |t.rows[i]| == |t.names|
  }

  /** Position of the first column called `n`. */
  function ColumnIndex(names: seq<string>, n: string): (k: nat)
    requires n in names
    ensures k < |names| && names[k] == n && n !in names[..k]
  {
    if names[0] == n then 0 else ColumnIndex(names[1..], n) + 1
  }

  /** `df[n]` as a list of cells; a column the table does not have reads as all
      NaN, which is what `pd.concat` fills it with. */
  function ColumnOf(t: Table, n: string): (col: seq<Cell>)
    requires Shaped(t)
    ensures |col| == |t.rows|
  {
    if n in t.names then
      seq(|t.rows|, i requires 0 <= i < |t.rows| => t.rows[i][ColumnIndex(t.names, n)])
    else
      seq(|t.rows|, i => Missing)
  }

  /** The first column's cells. */
  function FirstColumn(rows: seq<seq<Cell>>): seq<Cell>
    requires forall i :: 0 <= i < |rows| ==> |rows[i]| > 0
  {
    seq(|rows|, i requires 0 <= i < |rows| => rows[i][0])
  }

  /** Every column from position 1 up to `k` passed through `f`. */
  function AppliedBelow(rows: seq<seq<Cell>>, k: nat, f: Cell -> Cell): seq<seq<Cell>> {
    seq(|rows|, i requires 0 <= i < |rows| =>
      seq(|rows[i]|, c requires 0 <= c < |rows[i]| =>
        if 1 <= c < k then f(rows[i][c]) else rows[i][c]))
  }

  /** `for col in df.columns[1:]: df[col] = df[col].apply(f)` */
  function ApplyRest(t: Table, f: Cell -> Cell): Table {
    Table(t.names, AppliedBelow(t.rows, |t.names|, f))
  }

  /** Lines 69-70 and 93-94 of task6.py: `clean_data` applied to every column
      but the first. */
  function CleanRest(t: Table): Table {
    ApplyRest(t, CleanData)
  }

  /** Applying `f` to the columns after the first maps `f` over any named column
      other than the first, and leaves the shape alone. */
  lemma ApplyRestColumn(t: Table, f: Cell -> Cell, n: string)
    requires Shaped(t) && n in t.names && ColumnIndex(t.names, n) > 0
    ensures Shaped(ApplyRest(t, f))
    ensures ColumnOf(ApplyRest(t, f), n) ==
              seq(|t.rows|, i requires 0 <= i < |t.rows| => f(ColumnOf(t, n)[i]))
  {
    var k := ColumnIndex(t.names, n);
    var u := ApplyRest(t, f);
    assert Shaped(u) by {
      forall i | 0 <= i < |u.rows| ensures |u.rows[i]| == |u.names| {
        assert |u.rows[i]| == |t.rows[i]|;
      }
    }
    forall i | 0 <= i < |t.rows|
      ensures ColumnOf(u, n)[i] == f(ColumnOf(t, n)[i])
    {
      assert u.rows[i][k] == f(t.rows[i][k]);
    }
  }

  /** `df.replace(from, to)`: every cell equal to `from` becomes `to`. */
  function ReplaceCells(t: Table, from: Cell, to: Cell): (r: Table)
    ensures r.names == t.names && |r.rows| == |t.rows|
    ensures forall i :: 0 <= i < |t.rows| ==> |r.rows[i]| == |t.rows[i]|
  {
    Table(t.names, seq(|t.rows|, i requires 0 <= i < |t.rows| =>
      seq(|t.rows[i]|, c requires 0 <= c < |t.rows[i]| =>
        if t.rows[i][c] == from then to else t.rows[i][c])))
  }

  /** `df.replace(from, to)` replaces within every column. */
  lemma ReplaceColumn(t: Table, from: Cell, to: Cell, n: string)
    requires Shaped(t) && n in t.names
    ensures Shaped(ReplaceCells(t, from, to))
    ensures ColumnOf(ReplaceCells(t, from, to), n) ==
              seq(|t.rows|, i requires 0 <= i < |t.rows| => if ColumnOf(t, n)[i] == from then to else ColumnOf(t, n)[i])
  {
    var k := ColumnIndex(t.names, n);
    var u := ReplaceCells(t, from, to);
    forall i | 0 <= i < |t.rows|
      ensures ColumnOf(u, n)[i] == if ColumnOf(t, n)[i] == from then to else ColumnOf(t, n)[i]
    {
      assert u.rows[i][k] == if t.rows[i][k] == from then to else t.rows[i][k];
    }
  }

  /** The rows whose first cell is not `key`, in their order
      (`df[df['year'] != key]`). */
  function DropWhereFirst(rows: seq<seq<Cell>>, key: Cell): (r: seq<seq<Cell>>)
    requires forall i :: 0 <= i < |rows| ==> |rows[i]| > 0
    ensures forall i :: 0 <= i < |r| ==> |r[i]| > 0
  {
    if rows == [] then []
    else (if rows[0][0] == key then [] else [rows[0]]) + DropWhereFirst(rows[1..], key)
  }

  /** The cells of `cells` other than `key`, in their order. */
  function DropCell(cells: seq<Cell>, key: Cell): seq<Cell> {
    if cells == [] then []
    else (if cells[0] == key then [] else [cells[0]]) + DropCell(cells[1..], key)
  }

  /** Selecting rows by their first cell keeps exactly the rows whose first cell
      differs from the key, and invents none. */
  lemma {:induction false} DropWhereFirstMembers(rows: seq<seq<Cell>>, key: Cell)
    requires forall i :: 0 <= i < |rows| ==> |rows[i]| > 0
    ensures forall r :: r in DropWhereFirst(rows, key) <==> r in rows && r[0] != key
  {
    if rows != [] {
      DropWhereFirstMembers(rows[1..], key);
      var head: seq<seq<Cell>> := if rows[0][0] == key then [] else [rows[0]];
      assert DropWhereFirst(rows, key) == head + DropWhereFirst(rows[1..], key);
      assert rows == [rows[0]] + rows[1..];
    }
  }

  /** The first column of the selection is the old first column with the key
      taken out, in order. */
  lemma {:induction false} DropWhereFirstColumn(rows: seq<seq<Cell>>, key: Cell)
    requires forall i :: 0 <= i < |rows| ==> |rows[i]| > 0
    ensures FirstColumn(DropWhereFirst(rows, key)) == DropCell(FirstColumn(rows), key)
  {
    if rows != [] {
      DropWhereFirstColumn(rows[1..], key);
      var rest := DropWhereFirst(rows[1..], key);
      assert FirstColumn(rows) == [rows[0][0]] + FirstColumn(rows[1..]);
      if rows[0][0] != key {
        assert DropWhereFirst(rows, key) == [rows[0]] + rest;
        assert FirstColumn([rows[0]] + rest) == [rows[0][0]] + FirstColumn(rest);
      } else {
        assert DropWhereFirst(rows, key) == rest;
      }
    }
  }

  /** How many cells equal `key`. */
  function Occurrences(cells: seq<Cell>, key: Cell): nat {
    if cells == [] then 0 else (if cells[0] == key then 1 else 0) + Occurrences(cells[1..], key)
  }

  /** Dropping a key removes exactly its occurrences and leaves none. */
  lemma {:induction false} DropCellCount(cells: seq<Cell>, key: Cell)
    ensures |DropCell(cells, key)| + Occurrences(cells, key) == |cells|
    ensures key !in DropCell(cells, key)
  {
    if cells != [] {
      DropCellCount(cells[1..], key);
    }
  }

  /** `df[name] = v`: every row's cell in the first column called `name` becomes
      `v`, or a new last column `name` holding `v` is added. */
  function WithColumn(t: Table, name: string, v: Cell): (r: Table)
    requires Shaped(t)
    ensures Shaped(r) && name in r.names && |r.rows| == |t.rows|
    ensures r.names == if name in t.names then t.names else t.names + [name]
    ensures |t.names| <= |r.names| && r.names[..|t.names|] == t.names
    ensures ColumnOf(r, name) == seq(|t.rows|, i => v)
    ensures forall n :: n != name ==> ColumnOf(r, n) == ColumnOf(t, n)
  {
    if name in t.names then Overwritten(t, name, v) else Extended(t, name, v)
  }

  /** `df[name] = v` for a column the table has: that column becomes `v`. */
  function Overwritten(t: Table, name: string, v: Cell): (r: Table)
    requires Shaped(t) && name in t.names
    ensures Shaped(r) && r.names == t.names && |r.rows| == |t.rows|
    ensures ColumnOf(r, name) == seq(|t.rows|, i => v)
    ensures forall n :: n != name ==> ColumnOf(r, n) == ColumnOf(t, n)
  {
    var k := ColumnIndex(t.names, name);
    var r := Table(t.names, seq(|t.rows|, i requires 0 <= i < |t.rows| => t.rows[i][k := v]));
    assert forall n :: n in t.names && n != name ==> ColumnIndex(t.names, n) != k;
    r
  }

  /** `df[name] = v` for a new name: a last column `name` holding `v`. */
  function Extended(t: Table, name: string, v: Cell): (r: Table)
    requires Shaped(t) && name !in t.names
    ensures Shaped(r) && r.names == t.names + [name] && |r.rows| == |t.rows|
    ensures ColumnOf(r, name) == seq(|t.rows|, i => v)
    ensures forall n :: n != name ==> ColumnOf(r, n) == ColumnOf(t, n)
  {
    var r := Table(t.names + [name], seq(|t.rows|, i requires 0 <= i < |t.rows| => t.rows[i] + [v]));
    assert ColumnIndex(r.names, name) == |t.names| by {
      UniqueIndex(r.names, name, |t.names|);
    }
    assert forall n :: n in t.names ==> ColumnIndex(r.names, n) == ColumnIndex(t.names, n) by {
      forall n | n in t.names ensures ColumnIndex(r.names, n) == ColumnIndex(t.names, n) {
        PrefixIndex(t.names, [name], n);
      }
    }
    r
  }

  /** The first index of `n` is any index holding `n` with no `n` before it. */
  lemma UniqueIndex(names: seq<string>, n: string, k: nat)
    requires k < |names| && names[k] == n && n !in names[..k]
    ensures ColumnIndex(names, n) == k
  {
  }

  /** Appending names does not move a name already present. */
  lemma PrefixIndex(a: seq<string>, b: seq<string>, n: string)
    requires n in a
    ensures n in a + b && ColumnIndex(a + b, n) == ColumnIndex(a, n)
  {
    var k := ColumnIndex(a, n);
    assert (a + b)[..k] == a[..k];
    UniqueIndex(a + b, n, k);
  }

  /** The names of `b` that `a` lacks, in `b`'s order. */
  function NewNames(a: seq<string>, b: seq<string>): (r: seq<string>)
    ensures forall n :: n in r <==> n in b && n !in a
  {
    if b == [] then [] else (if b[0] in a then [] else [b[0]]) + NewNames(a, b[1..])
  }

  /** With nothing on the left, the new names are all of `b`'s. */
  lemma {:induction false} NewNamesEmpty(b: seq<string>)
    ensures NewNames([], b) == b
  {
    if b != [] {
      NewNamesEmpty(b[1..]);
    }
  }

  /** The column index `pd.concat` builds: `a`'s names, then the names only `b` has. */
  function Union(a: seq<string>, b: seq<string>): (r: seq<string>)
    ensures forall n :: n in r <==> n in a || n in b
  {
    a + NewNames(a, b)
  }

  /** A row with columns `from` laid out under the columns `to`: a cell under a
      name it had, NaN under a name it lacked. */
  function Realign(from: seq<string>, row: seq<Cell>, to: seq<string>): (r: seq<Cell>)
    requires |row| == |from|
    ensures |r| == |to|
  {
    seq(|to|, k requires 0 <= k < |to| =>
      if to[k] in from then row[ColumnIndex(from, to[k])] else Missing)
  }

  function RealignAll(t: Table, to: seq<string>): (rows: seq<seq<Cell>>)
    requires Shaped(t)
    ensures |rows| == |t.rows|
    ensures forall i :: 0 <= i < |rows| ==> |rows[i]| == |to|
  {
    seq(|t.rows|, i requires 0 <= i < |t.rows| => Realign(t.names, t.rows[i], to))
  }

  /** `pd.concat([a, b], ignore_index=True)`: the outer join of the columns,
      `a`'s rows then `b`'s. */
  function Concat(a: Table, b: Table): (r: Table)
    requires Shaped(a) && Shaped(b)
    ensures Shaped(r)
  {
    var names := Union(a.names, b.names);
    Table(names, RealignAll(a, names) + RealignAll(b, names))
  }

  /** Laying a table out under more columns keeps each of its columns and fills
      the others with NaN. */
  lemma RealignColumn(t: Table, to: seq<string>, n: string)
    requires Shaped(t) && (n in t.names ==> n in to)
    ensures n in to ==> ColumnOf(Table(to, RealignAll(t, to)), n) == ColumnOf(t, n)
  {
    if n in to {
      var k := ColumnIndex(to, n);
      var u := Table(to, RealignAll(t, to));
      assert Shaped(u);
      forall i | 0 <= i < |t.rows|
        ensures ColumnOf(u, n)[i] == ColumnOf(t, n)[i]
      {
        assert u.rows[i][k] == Realign(t.names, t.rows[i], to)[k];
      }
    }
  }

  /** Stacking rows stacks every column. */
  lemma ColumnOfAppend(names: seq<string>, top: seq<seq<Cell>>, bottom: seq<seq<Cell>>, n: string)
    requires Shaped(Table(names, top)) && Shaped(Table(names, bottom))
    ensures Shaped(Table(names, top + bottom))
    ensures ColumnOf(Table(names, top + bottom), n) == ColumnOf(Table(names, top), n) + ColumnOf(Table(names, bottom), n)
  {
    assert forall i :: 0 <= i < |top| ==> (top + bottom)[i] == top[i];
    assert forall i :: 0 <= i < |bottom| ==> (top + bottom)[|top| + i] == bottom[i];
  }

  /** `pd.concat` stacks columns: under every name, the combined column is `a`'s
      column followed by `b`'s, NaN standing in where a table lacks the name; and
      `a`'s columns come first, in their order. */
  lemma ConcatColumn(a: Table, b: Table, n: string)
    requires Shaped(a) && Shaped(b)
    ensures ColumnOf(Concat(a, b), n) == ColumnOf(a, n) + ColumnOf(b, n)
    ensures Concat(a, b).names[..|a.names|] == a.names
  {
    var names := Union(a.names, b.names);
    RealignColumn(a, names, n);
    RealignColumn(b, names, n);
    ColumnOfAppend(names, RealignAll(a, names), RealignAll(b, names), n);
  }

  /** A DataFrame that is updated in place. */
  class Frame {
    var names: seq<string>
    var rows: seq<seq<Cell>>

    function Value(): Table
      reads this
    {
      Table(names, rows)
    }

    constructor (t: Table)
      ensures Value() == t
    {
      names := t.names;
      rows := t.rows;
    }

    /** `df.columns = ns` */
    method SetNames(ns: seq<string>)
      requires |ns| == |names|
      modifies this
      ensures Value() == Table(ns, old(rows))
    {
      names := ns;
    }

    /** `df = df.replace(from, to)` */
    method Replace(from: Cell, to: Cell)
      modifies this
      ensures Value() == ReplaceCells(old(Value()), from, to)
    {
      rows := ReplaceCells(Value(), from, to).rows;
    }

    /** `df[col] = df[col].apply(f)` for the column at position `k`. */
    method ApplyToColumn(k: nat, f: Cell -> Cell)
      requires Shaped(Value()) && k < |names|
      modifies this
      ensures names == old(names) && |rows| == |old(rows)|
      ensures forall i :: 0 <= i < |rows| ==> rows[i] == old(rows[i])[k := f(old(rows[i])[k])]
    {
      var old_rows := rows;
      rows := seq(|old_rows|, i requires 0 <= i < |old_rows| => old_rows[i][k := f(old_rows[i][k])]);
    }

    /** `for col in df.columns[1:]: df[col] = df[col].apply(f)`, one column at a time. */
    method ApplyToAllButFirst(f: Cell -> Cell)
      requires Shaped(Value())
      modifies this
      ensures Value() == ApplyRest(old(Value()), f)
    {
      var k := 1;
      while k < |names|
        invariant names == old(names) && |rows| == |old(rows)|
        invariant forall i :: 0 <= i < |rows| ==> |rows[i]| == |names|
        invariant forall i, c :: 0 <= i < |rows| && 0 <= c < |names| ==>
                    rows[i][c] == if 1 <= c < k then f(old(rows)[i][c]) else old(rows)[i][c]
      {
        ApplyToColumn(k, f);
        k := k + 1;
      }
      forall i | 0 <= i < |rows|
        ensures rows[i] == AppliedBelow(old(rows), |names|, f)[i]
      {
      }
    }

    /** `df = df[df[<first column>] != key]` */
    method DropRowsWhereFirstIs(key: Cell)
      requires forall i :: 0 <= i < |rows| ==> |rows[i]| > 0
      modifies this
      ensures Value() == Table(old(names), DropWhereFirst(old(rows), key))
    {
      rows := DropWhereFirst(rows, key);
    }

    /** `df[name] = v` */
    method SetColumn(name: string, v: Cell)
      requires Shaped(Value())
      modifies this
      ensures Value() == WithColumn(old(Value()), name, v)
    {
      var t := WithColumn(Value(), name, v);
      names, rows := t.names, t.rows;
    }
  }
}
