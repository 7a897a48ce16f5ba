/**
 The loop of the main block that scrapes every company and stacks the results
 (task6.py:139-145). The login session and the HTTP request are replaced by a
 function from a company symbol to the page the request returned, `None` when
 the request failed (the non-200 branch of `scrape_reliance_data`, lines 75-77).
 */
module Batch {
  import opened Cells
  import opened Frames
  import opened Reshape
  import opened Save

  datatype Option<T> = None | Some(value: T)

  /** `zip(symbols, names)`: the pairs in order, up to the shorter list. */
  function Zip(symbols: seq<string>, names: seq<string>): (pairs: seq<(string, string)>)
    ensures |pairs| == if |symbols| <= |names| then |symbols| else |names|
    ensures forall i :: 0 <= i < |pairs| ==> pairs[i] == (symbols[i], names[i])
  {
    if symbols == [] || names == [] then []
    else [(symbols[0], names[0])] + Zip(symbols[1..], names[1..])
  }

  /** Every page the requests return can be reshaped (the source fails with an
      exception on the others). */
  predicate Scrapable(fetch: string -> Option<Page>, pairs: seq<(string, string)>) {
    forall i :: 0 <= i < |pairs| && fetch(pairs[i].0).Some? ==> Reshapeable(fetch(pairs[i].0).value)
  }

  lemma ScrapablePrefix(fetch: string -> Option<Page>, pairs: seq<(string, string)>, k: nat)
    requires Scrapable(fetch, pairs) && k <= |pairs|
    ensures Scrapable(fetch, pairs[..k])
  {
    forall i | 0 <= i < k
      ensures pairs[..k][i] == pairs[i]
    {
    }
  }

  /** Lines 142-143: a company's table with a `Company` column holding its name. */
  function Block(p: Page, name: string): (t: Table)
    requires Reshapeable(p)
    ensures Shaped(t)
  {
    ReshapedYear(p);
    WithColumn(Reshaped(p), "Company", Text(name))
  }

  /** `all_df` after the loop has gone through `pairs` (lines 139-144). */
  function Combined(pairs: seq<(string, string)>, fetch: string -> Option<Page>): (t: Table)
    requires Scrapable(fetch, pairs)
    ensures Shaped(t)
    decreases |pairs|
  {
    if pairs == [] then Table([], [])
    else
      var k := |pairs| - 1;
      ScrapablePrefix(fetch, pairs, k);
      match fetch(pairs[k].0)
      case None => Combined(pairs[..k], fetch)
      case Some(p) => Concat(Combined(pairs[..k], fetch), Block(p, pairs[k].1))
  }

  /** One more pair: a failed scrape leaves `all_df` as it was, a successful one
      appends the company's block. */
  lemma CombinedStep(pairs: seq<(string, string)>, fetch: string -> Option<Page>, i: nat)
    requires Scrapable(fetch, pairs) && i < |pairs|
    ensures Scrapable(fetch, pairs[..i]) && Scrapable(fetch, pairs[..i + 1])
    ensures fetch(pairs[i].0).Some? ==> Reshapeable(fetch(pairs[i].0).value)
    ensures Combined(pairs[..i + 1], fetch) ==
              match fetch(pairs[i].0)
              case None => Combined(pairs[..i], fetch)
              case Some(p) => Concat(Combined(pairs[..i], fetch), Block(p, pairs[i].1))
  {
    ScrapablePrefix(fetch, pairs, i);
    ScrapablePrefix(fetch, pairs, i + 1);
    assert pairs[..i + 1][..i] == pairs[..i];
  }

  /** Lines 141-143: a company's reshaped table with its name in a `Company` column. */
  method TaggedTable(p: Page, name: string) returns (df: Frame)
    requires Reshapeable(p)
    ensures fresh(df) && df.Value() == Block(p, name)
  {
    df := ReshapeTable(p);
    df.SetColumn("Company", Text(name));
  }

  /** Lines 139-144: scrape each company in pair order, skip the failed ones,
      tag each table with the company's name and append it to `all_df`. */
  method RunBatch(symbols: seq<string>, names: seq<string>, fetch: string -> Option<Page>)
    returns (all: Frame)
    requires Scrapable(fetch, Zip(symbols, names))
    ensures fresh(all)
    ensures all.Value() == Combined(Zip(symbols, names), fetch)
  {
    var pairs := Zip(symbols, names);
    all := new Frame(Table([], []));
    for i := 0 to |pairs|
      invariant fresh(all)
      invariant all.Value() == Combined(pairs[..i], fetch)
    {
      CombinedStep(pairs, fetch, i);
      var (symbol, name) := pairs[i];
      var page := fetch(symbol);
      if page.Some? {
        var df := TaggedTable(page.value, name);
        all := new Frame(Concat(all.Value(), df.Value()));
      }
    }
    assert pairs[..|pairs|] == pairs;
  }

  /** Lines 139-145: the batch, then the table `save_to_postgres` writes. */
  method ScrapeAndSave(symbols: seq<string>, names: seq<string>, fetch: string -> Option<Page>)
    returns (written: Table)
    requires Scrapable(fetch, Zip(symbols, names))
    ensures written == Written(Combined(Zip(symbols, names), fetch))
  {
    var all := RunBatch(symbols, names, fetch);
    written := PrepareForSave(all);
  }

  /** The column `n` of every successful company's block, stacked in pair order:
      what `pd.concat` is meant to produce, column by column. */
  function Stacked(pairs: seq<(string, string)>, fetch: string -> Option<Page>, n: string): seq<Cell>
    requires Scrapable(fetch, pairs)
    decreases |pairs|
  {
    if pairs == [] then []
    else
      var k := |pairs| - 1;
      ScrapablePrefix(fetch, pairs, k);
      Stacked(pairs[..k], fetch, n) +
        match fetch(pairs[k].0)
        case None => []
        case Some(p) => ColumnOf(Block(p, pairs[k].1), n)
  }

  /** `Company` tags: every row of a company's block carries its name, the
      companies in pair order, a failed scrape contributing no row. */
  function Tags(pairs: seq<(string, string)>, fetch: string -> Option<Page>): (tags: seq<Cell>)
    requires Scrapable(fetch, pairs)
    ensures forall i :: 0 <= i < |tags| ==> tags[i].Text?
    decreases |pairs|
  {
    if pairs == [] then []
    else
      var k := |pairs| - 1;
      ScrapablePrefix(fetch, pairs, k);
      Tags(pairs[..k], fetch) +
        match fetch(pairs[k].0)
        case None => []
        case Some(p) => seq(|Reshaped(p).rows|, i => Text(pairs[k].1))
  }

  /** The accumulated table is the blocks stacked in order: under every name,
      its column is the companies' columns one after another. */
  lemma {:induction false} CombinedColumns(pairs: seq<(string, string)>, fetch: string -> Option<Page>, n: string)
    requires Scrapable(fetch, pairs)
    ensures ColumnOf(Combined(pairs, fetch), n) == Stacked(pairs, fetch, n)
    decreases |pairs|
  {
    if pairs != [] {
      var k := |pairs| - 1;
      ScrapablePrefix(fetch, pairs, k);
      CombinedColumns(pairs[..k], fetch, n);
      match fetch(pairs[k].0)
      case None =>
      case Some(p) =>
        ConcatColumn(Combined(pairs[..k], fetch), Block(p, pairs[k].1), n);
    }
  }

  /** Every row of the accumulated table carries the name of the company it
      came from, in pair order; failed scrapes contribute nothing. */
  lemma {:induction false} CompanyColumn(pairs: seq<(string, string)>, fetch: string -> Option<Page>)
    requires Scrapable(fetch, pairs)
    ensures ColumnOf(Combined(pairs, fetch), "Company") == Tags(pairs, fetch)
  {
    CombinedColumns(pairs, fetch, "Company");
    StackedCompany(pairs, fetch);
  }

  lemma {:induction false} StackedCompany(pairs: seq<(string, string)>, fetch: string -> Option<Page>)
    requires Scrapable(fetch, pairs)
    ensures Stacked(pairs, fetch, "Company") == Tags(pairs, fetch)
    decreases |pairs|
  {
    if pairs != [] {
      var k := |pairs| - 1;
      ScrapablePrefix(fetch, pairs, k);
      StackedCompany(pairs[..k], fetch);
    }
  }

  /** Every other column of a block is the company's own table's column. */
  lemma BlockColumns(p: Page, name: string, n: string)
    requires Reshapeable(p) && n != "Company"
    ensures ColumnOf(Block(p, name), n) == ColumnOf(Reshaped(p), n)
  {
    ReshapedYear(p);
    var t := Reshaped(p);
    var b := WithColumn(t, "Company", Text(name));
    assert Block(p, name) == b;
    assert ColumnOf(b, n) == ColumnOf(t, n);
  }

  /** The accumulated table is empty, or its first column is `year`. */
  lemma {:induction false} CombinedFirst(pairs: seq<(string, string)>, fetch: string -> Option<Page>)
    requires Scrapable(fetch, pairs)
    ensures Combined(pairs, fetch).names == [] || Combined(pairs, fetch).names[0] == "year"
    decreases |pairs|
  {
    if pairs != [] {
      var k := |pairs| - 1;
      ScrapablePrefix(fetch, pairs, k);
      CombinedFirst(pairs[..k], fetch);
      match fetch(pairs[k].0)
      case None =>
      case Some(p) =>
        var a, b := Combined(pairs[..k], fetch), Block(p, pairs[k].1);
        ReshapedYear(p);
        assert b.names[0] == "year";
        ConcatColumn(a, b, "year");
        if a.names == [] {
          NewNamesEmpty(b.names);
        }
    }
  }

  /** Lines 93-95 on the batch: the `Company` column goes through `clean_data`
      like every column but the first, so each row is saved with its company's
      name cleaned (spaces, `+`, `%` and `,` deleted), one row per row scraped. */
  lemma SavedCompany(pairs: seq<(string, string)>, fetch: string -> Option<Page>)
    requires Scrapable(fetch, pairs)
    ensures |Combined(pairs, fetch).rows| == |Tags(pairs, fetch)|
    ensures ColumnOf(Written(Combined(pairs, fetch)), "Company") ==
              seq(|Tags(pairs, fetch)|, i requires 0 <= i < |Tags(pairs, fetch)| => CleanData(Tags(pairs, fetch)[i]))
  {
    var t := Combined(pairs, fetch);
    var tags := Tags(pairs, fetch);
    CompanyColumn(pairs, fetch);
    if "Company" in t.names {
      CombinedFirst(pairs, fetch);
      WrittenColumn(t, "Company");
    }
  }
}
