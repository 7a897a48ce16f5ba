# Screener.in profit-and-loss scraper: the table pipeline

`task6.py` logs in to screener.in and then works through a list of companies. For each company it:
1. fetches the company's consolidated page;
2. turns the profit-and-loss table into a DataFrame with one row per reporting period and one column per metric;
3. tags the table with the company's name and stacks it onto the tables already scraped.

Once every company has been scraped, the stacked table is cleaned once more and written to PostgreSQL.

This project models the data side of that pipeline in Dafny:

- **`Strings`**: the Python `str` operations the script relies on, namely `strip`, `replace`, `replace(c, '', 1)` and `isdigit`. Whitespace follows Python's `str.isspace`.
- **`Cells`**: a DataFrame cell and the normaliser `clean_data`.
  - A cell is one of four things: a string, an exact decimal number, the default `0`, or pandas' NaN.
  - `clean_data` deletes `+`, `%`, `,` and spaces, then strips the ends. The result becomes a number exactly when it is a decimal numeral with at most one point. A numeral that `float` refuses gives `0.0`. Any other string comes back scrubbed.
- **`Frames`**: a DataFrame as column names over rows of cells, plus the operations the script uses:
  - `replace`;
  - `apply` on every column but the first;
  - row selection on the first column;
  - column assignment;
  - `pd.concat`, which joins on column names and puts NaN where a table lacks a column.

  The class `Frames.Frame` is the mutable DataFrame, and its methods update it in place.
- **`Reshape`**: the body of `scrape_reliance_data`, step by step on a `Frame`. The steps are:
  1. filter the rows;
  2. rename the first column to `year`;
  3. transpose;
  4. name blank columns `Unknown`;
  5. turn empty cells into `0`;
  6. sanitise the column names;
  7. run `clean_data` on every column but `year`;
  8. drop the `TTM` row.

  `Reshape.Reshaped` states the resulting table in one expression, and `Reshape.ReshapeTable` is proved to build exactly that table.
- **`Save`**: the in-memory part of `save_to_postgres`. The caller's frame gets a second `clean_data` pass in place, and then NaN cells become `0` in a new frame.
- **`Batch`**: the main loop. It zips the symbols with the names, scrapes each company, tags its table with a `Company` column and concatenates the tables.

Network, HTML parsing, login and the database are replaced as follows:
- A page is given as the texts of its header cells and of its rows' cells.
- The HTTP request becomes a function from a symbol to `Some(page)`, or to `None` when the request fails.

Some of the code's behaviour is easy to misread, and the model follows the code:
- `clean_data` returns a non-numeric string with its spaces, `+`, `%` and `,` deleted (task6.py line 81). For example, `Mar 2022` becomes `Mar2022` (`Cells.CleanDataLabel`).
- `clean_data("")` is `""`, because `"".isdigit()` is false at line 82. The empty cells already became `0` at line 62 (`Cells.CleanDataEmpty`).
- Line 66 deletes every `+` in a column name, wherever it stands (`Reshape.SanitiseNameSpec`, `Reshape.SanitiseSalesPlus`).
- Lines 69-70 skip only the first column (`year`). The `Company` column added at line 143 is therefore cleaned only when the table is saved, at lines 93-94 (`Batch.SavedCompany`).

## Model

| member | source | states |
|---|---|---|
| Strings.TrimStart | task6.py:41 | the left half of `str.strip()`: the result is no longer than the argument and does not start with whitespace |
| Strings.TrimStartKeeps | task6.py:41 | what the left strip keeps is a suffix of the argument |
| Strings.TrimStartCutsSpace | task6.py:41 | the left strip removes only whitespace |
| Strings.TrimEnd | task6.py:41 | the right half of `str.strip()`: the result is no longer than the argument and does not end with whitespace |
| Strings.TrimEndKeeps | task6.py:41 | what the right strip keeps is a prefix of the argument |
| Strings.TrimEndCutsSpace | task6.py:41 | the right strip removes only whitespace |
| Strings.IsSpace | task6.py:41 | Python's `str.isspace` table, the characters `strip()` removes; no contract (definition; used by TrimStartCutsSpace and TrimEndCutsSpace) |
| Strings.Strip | task6.py:41 | `str.strip()`: the result has no whitespace at either end, is no longer than the argument, and a trimmed string is left alone |
| Strings.StripChars | task6.py:41 | `str.strip()` adds no character |
| Strings.Without | task6.py:66 | `replace(c, "")` deletes every `c`; no contract of its own, characterised by WithoutSpec and WithoutAppend |
| Strings.WithoutAppend | task6.py:66 | `replace(c, "")` on a concatenation deletes `c` from each part |
| Strings.WithoutSpec | task6.py:81 | `replace(c, "")` leaves no `c`, adds no character and is the identity when `c` is absent |
| Strings.ReplaceChar | task6.py:66 | `replace(' ', '_')`, character by character; no contract (definition; SanitiseNameSpec states what follows from it) |
| Strings.IsDigit | task6.py:82 | `c.isdigit()`: a decimal digit `float` reads or a superscript, subscript or circled digit it refuses; no contract (definition) |
| Strings.IsDigitString | task6.py:82 | `s.isdigit()`: non-empty and all digits; no contract (definition; DigitTestIsNumeral characterises line 82's test with it) |
| Strings.RemoveFirst | task6.py:82 | `replace('.', '', 1)` deletes exactly the first point, or nothing when there is none |
| Strings.IndexOf | task6.py:82 | the first position of a character that occurs: it holds the character and nothing before it does |
| Cells.Scrub | task6.py:81 | the deletions and strip of line 81 give a string with no `+`, `%`, `,` or space and trimmed ends; nothing is added; an already scrubbed string is unchanged |
| Cells.CleanData | task6.py:79-88 | a value that is not a string is returned unchanged; a string that stays text comes back scrubbed |
| Cells.ToNumber | task6.py:83-86 | `float(value)` with its `ValueError` fallback; no contract of its own, characterised by NumberIffNumeral, NumeralValue and CleanDataSuperscript |
| Cells.DigitTestIsNumeral | task6.py:82 | the test "removing the first point leaves a non-empty digit string" holds exactly of decimal numerals with at most one point |
| Cells.NumberIffNumeral | task6.py:79-88 | a string becomes non-text iff its scrubbed form is a decimal numeral; it becomes a number iff, in addition, every digit is one `float` reads; otherwise it is the scrubbed text |
| Cells.NumeralValue | task6.py:83-84 | a converted number is the exact decimal value of the numeral, and its scale is the number of digits after the point |
| Cells.CleanDataIdempotent | task6.py:79-88 | cleaning a cleaned value changes nothing |
| Cells.CleanDataMissing | task6.py:79-88 | the result is NaN exactly when the argument is NaN |
| Cells.CleanDataSettles | task6.py:79-88 | for every value but NaN, the result is not NaN and cleaning it again changes nothing |
| Cells.DigitsValueAppend | task6.py:83-84 | the value of concatenated digit strings is the left value shifted by the right length plus the right value, as `float` reads digits |
| Cells.CleanDataLabel | task6.py:81-87 | `"Mar 2022"` is not a number and comes back as `"Mar2022"` |
| Cells.CleanDataPercent | task6.py:81-84 | `"+80%"` becomes the number 80 |
| Cells.CleanDataNegative | task6.py:82-87 | `"-5"` fails the digit test and stays text |
| Cells.CleanDataTwoPoints | task6.py:82-87 | `"1.2.3"` fails the digit test, because only one point is removed, and stays text |
| Cells.CleanDataEmpty | task6.py:82-87 | the empty string stays the empty string |
| Cells.CleanDataSuperscript | task6.py:82-86 | a superscript digit passes `isdigit`, makes `float` raise, and gives the 0.0 fallback |
| Frames.ColumnIndex | task6.py:72 | `df[n]` reads the first column called `n` |
| Frames.ColumnOf | task6.py:70 | `df[n]` as a list of cells: one per row, all NaN for a name the table lacks |
| Frames.UniqueIndex | task6.py:72 | a name that occurs first at position `k` is looked up at `k` |
| Frames.ApplyRest | task6.py:69-70 | `apply(f)` on every column but the first; no contract of its own, characterised by ApplyRestColumn and Frame.ApplyToAllButFirst |
| Frames.CleanRest | task6.py:69-70 | ApplyRest with `clean_data`; no contract of its own, see Save.CleanRestIdempotent |
| Frames.ApplyRestColumn | task6.py:69-70 | applying `f` to every column but the first maps `f` over each such column and keeps the table rectangular |
| Frames.ReplaceColumn | task6.py:62-63 | `df.replace(from, to)` replaces `from` by `to` in every column and keeps the table rectangular |
| Frames.ReplaceCells | task6.py:62-63 | `df.replace(from, to)` keeps the names, the row count and every row's length; ReplaceColumn states the content |
| Frames.DropWhereFirst | task6.py:72 | `df[df['year'] != key]`: no kept row is empty; DropWhereFirstMembers and DropWhereFirstColumn state which rows remain |
| Frames.DropWhereFirstMembers | task6.py:72 | a row survives the selection iff it was a row and its first cell differs from the key |
| Frames.DropWhereFirstColumn | task6.py:72 | the first column of the selection is the old first column with exactly the key's cells taken out, in order |
| Frames.DropCellCount | task6.py:72 | dropping a key removes exactly its occurrences and leaves none |
| Frames.WithColumn | task6.py:143 | `df[name] = v` puts `v` in every row of column `name`; the names are unchanged when `name` is present, and otherwise exactly `name` is added at the end; every other column is unchanged |
| Frames.Overwritten | task6.py:143 | for a present `name`: the names stay, that column becomes all `v`, every other column is unchanged |
| Frames.Extended | task6.py:143 | for a new `name`: the names gain exactly `name` at the end, that column is all `v`, every other column is unchanged |
| Frames.NewNames | task6.py:144 | the names `pd.concat` adds are those of the right table that the left table lacks |
| Frames.Union | task6.py:144 | the combined column index holds exactly the names of either table |
| Frames.Concat | task6.py:144 | `pd.concat` of two rectangular tables is rectangular |
| Frames.NewNamesEmpty | task6.py:139-144 | concatenating onto the empty `all_df` keeps the right table's names |
| Frames.RealignColumn | task6.py:144 | realigning a table to a wider name list keeps every column it had under the same name |
| Frames.ColumnOfAppend | task6.py:144 | stacking rows under the same names stacks every column |
| Frames.ConcatColumn | task6.py:144 | under every name, the concatenated column is the left table's column followed by the right table's, with NaN where a table lacks the name; the left names come first |
| Frames.Frame.constructor | task6.py:51 | a frame holds the table it is built from |
| Frames.Frame.SetNames | task6.py:61 | assigning `df.columns` replaces the names and keeps the rows |
| Frames.Frame.Replace | task6.py:62-63 | `df = df.replace(from, to)` updates the frame to the replaced table |
| Frames.Frame.ApplyToColumn | task6.py:70 | `df[col] = df[col].apply(f)` changes exactly that column of every row |
| Frames.Frame.ApplyToAllButFirst | task6.py:69-70 | the loop over `df.columns[1:]` leaves the frame equal to `f` applied to every column but the first |
| Frames.Frame.DropRowsWhereFirstIs | task6.py:72 | the frame keeps its names and exactly the rows whose first cell is not the key |
| Frames.Frame.SetColumn | task6.py:143 | the frame becomes the table with the column set |
| Reshape.StripAll | task6.py:46 | `[x.strip() for x in xs]` keeps the length |
| Reshape.Body | task6.py:44 | `rows[1:]`; no contract (definition) |
| Reshape.Accepted | task6.py:47-48 | every kept row has one cell per header |
| Reshape.Mismatched | task6.py:49-50 | every reported row has a different number of cells than there are headers |
| Reshape.AcceptedAppend | task6.py:44-50 | filtering a concatenation filters each part, so kept rows keep their order |
| Reshape.MismatchedAppend | task6.py:44-50 | the rows reported as mismatched of a concatenation are those of each part, in order |
| Reshape.AcceptedStep | task6.py:44-50 | one more row extends exactly one of the kept rows (stripped, when its cell count matches) or the reported rows |
| Reshape.AcceptedCount | task6.py:44-50 | every row is either kept or reported |
| Reshape.AcceptedMembers | task6.py:44-50 | a row is kept iff it is the stripped form of a row with one cell per header |
| Reshape.FilterRows | task6.py:44-50 | the loop keeps exactly the accepted rows and reports exactly the mismatched ones; together they are every row but the header row |
| Reshape.IndexLabels | task6.py:53-54 | the relabelled headers are as many as the headers, and the first one is `year` |
| Reshape.RenameLabel | task6.py:54 | the dict rename `Narration` to `Year`, `Year` to `year`, on one name; no contract (definition; IndexLabels states the result) |
| Reshape.BlankToUnknown | task6.py:61 | a blank name becomes `Unknown`; no contract (definition; MetricNameSpec states the result) |
| Reshape.EmptyToZero | task6.py:62 | an empty cell becomes 0; no contract (definition; PeriodRowCells states the result) |
| Reshape.SanitiseName | task6.py:66 | `replace(' ', '_').replace('+', '').strip()`; no contract of its own, characterised by SanitiseNameSpec and SanitisedUnchanged |
| Reshape.MetricName | task6.py:58-68 | the name a metric's row label ends up with (strip, blank fix, sanitising); characterised by MetricNameSpec |
| Reshape.PeriodRow | task6.py:55-70 | the output row for one period has one cell more than there are kept rows; PeriodRowCells states every cell |
| Reshape.Transposed | task6.py:55-60 | the transposed table is rectangular, with one column per kept row plus `year` and one row per period header |
| Reshape.SanitiseNameSpec | task6.py:66 | a sanitised name has no space and no `+`, no whitespace at its ends, and no new character except `_` |
| Reshape.SanitiseNames | task6.py:64-68 | the loop sanitises every name, in order |
| Reshape.PeriodRows | task6.py:55-70 | one row per period header after the first, each with the label and one cell per kept row |
| Reshape.Reshaped | task6.py:41-72 | the returned table is rectangular |
| Reshape.DroppedShaped | task6.py:72 | dropping the `TTM` rows keeps every row one cell per column |
| Reshape.ColumnNameYear | task6.py:53-68 | the returned table's first column is named `year`, unchanged by the blank-fixing and sanitising |
| Reshape.ColumnNameAt | task6.py:58-68 | column `r + 1` of the returned table carries kept row `r`'s metric name |
| Reshape.SanitisedUnchanged | task6.py:66 | a trimmed name with no space and no `+` is left alone by the sanitising |
| Reshape.YearName | task6.py:53-68 | the name `year` passes the blank-fixing and sanitising unchanged |
| Reshape.UnknownName | task6.py:61-66 | the name `Unknown` passes the sanitising unchanged |
| Reshape.RowsMatch | task6.py:62-70 | after the fills and the cleaning, row `j` of the transposed table is the period row of header `j + 1` |
| Reshape.ReshapeTable | task6.py:41-72 | the step-by-step DataFrame pipeline builds exactly `Reshaped(p)` in a new frame |
| Reshape.PeriodRowsFirst | task6.py:55-60 | the first column of the period rows is the period labels, in header order |
| Reshape.MetricCells | task6.py:55-70 | a period has one cell per kept row, each that row's cell for the period with empty as 0, cleaned |
| Reshape.PeriodRowCells | task6.py:62-70 | a period row is its label (empty as 0), then each metric's cell for that period, empty as 0, through `clean_data` |
| Reshape.ReshapedYear | task6.py:55-72 | the table is rectangular and starts with `year`, then one column per kept row; `year` holds the uncleaned period labels in header order without `TTM`; the row count is the period count minus the number of `TTM` labels |
| Reshape.MetricNameSpec | task6.py:58-68 | a metric's column name has no space, no `+` and trimmed ends; a blank label becomes `Unknown` |
| Reshape.ColumnNamesSpec | task6.py:58-68 | every column name is clean, column `r + 1` is kept row `r`'s metric name, and blank labels give `Unknown` |
| Reshape.ReshapedNames | task6.py:53-68 | the returned table has one name more than there are kept rows: `year`, then each kept row's metric name (stripped, blank as `Unknown`, sanitised); none has a space, a `+` or whitespace at its ends |
| Reshape.ReshapedRows | task6.py:72 | a row is returned iff it is a period row whose label is not `TTM` |
| Reshape.SanitiseSalesPlus | task6.py:66 | `"Sales +"` becomes `"Sales_"` |
| Reshape.YearLabelKept | task6.py:69-70 | the `year` column is skipped by the cleaning: `"Mar 2022"` would lose its space if cleaned |
| Save.PrepareForSave | task6.py:93-95 | the caller's frame is cleaned in place on every column but the first, and the written table is that table with NaN filled by 0 |
| Save.FillMissing | task6.py:95 | `df.fillna(0)`; no contract of its own, characterised by FillMissingSpec |
| Save.Written | task6.py:93-95 | the table lines 93-95 hand to `to_sql`; no contract of its own, characterised by WrittenIdempotent, SettledWritten and WrittenColumn |
| Save.FillMissingSpec | task6.py:95 | `fillna(0)` leaves no NaN and keeps every other cell |
| Save.CleanRestIdempotent | task6.py:93-94 | cleaning the columns after the first twice is cleaning them once |
| Save.WrittenIdempotent | task6.py:93-95 | saving the table that would be written writes it unchanged |
| Save.PeriodRowSettled | task6.py:62-70 | a period row has no NaN, and every cell after the label is already cleaned |
| Save.PeriodRowSettles | task6.py:62-70 | a period row cleaned by any `f` that never yields NaN and settles after one pass has no NaN and is fixed by `f` after the label |
| Save.SettledWritten | task6.py:93-95 | for any cleaner `f`: a table whose rows are settled under `f` is returned unchanged by applying `f` to every column but the first and then filling NaN |
| Save.WrittenColumn | task6.py:93-95 | a column after the first with no NaN is written as the column passed through `clean_data` |
| Save.SaveKeepsReshaped | task6.py:93-95 | a single scraped company's table is written exactly as `scrape_reliance_data` returned it |
| Batch.Zip | task6.py:140 | `zip` pairs the lists position by position, up to the shorter one |
| Batch.Block | task6.py:142-143 | a company's table with the `Company` column is rectangular |
| Batch.Combined | task6.py:139-144 | `all_df` after the loop is rectangular |
| Batch.CombinedStep | task6.py:141-144 | a failed scrape leaves `all_df` unchanged; a successful one appends the company's tagged table |
| Batch.TaggedTable | task6.py:141-143 | a reshaped page with its `Company` column set is, in a new frame, the company's block |
| Batch.RunBatch | task6.py:139-144 | the loop builds exactly `Combined` of the zipped pairs in a new frame |
| Batch.ScrapeAndSave | task6.py:139-145 | the table written is the saved form of the combined table |
| Batch.Tags | task6.py:143 | every company tag is a string |
| Batch.CombinedColumns | task6.py:144 | every column of `all_df` is that column of each successful company's table, stacked in pair order |
| Batch.Stacked | task6.py:144 | each successful company's column `n`, stacked in pair order; no contract of its own, tied to `Combined` by CombinedColumns |
| Batch.CompanyColumn | task6.py:142-144 | the `Company` column of `all_df` has, for every scraped row, its company's name; companies appear in pair order and failed scrapes contribute nothing |
| Batch.StackedCompany | task6.py:143-144 | the stacked `Company` columns are the tags |
| Batch.BlockColumns | task6.py:143 | tagging a table leaves its other columns unchanged |
| Batch.CombinedFirst | task6.py:139-144 | `all_df` is empty or its first column is `year` |
| Batch.SavedCompany | task6.py:93-94 | the saved `Company` column holds each row's company name passed through `clean_data`; there is one row per scraped row |

## Left out

- Login (`login_to_screener`), the HTTP session and BeautifulSoup parsing: a page is given as the texts of its header and row cells, and the request as a function that returns `None` for a non-200 status.
- The database engine, `to_sql` and the `SQLAlchemyError` handler: the model stops at the table handed to `to_sql`.
- `read_company_names_from_csv`: it does not parse as written (an unexpected indent at line 107, and a `\U` escape in the path at line 105). It is not part of this model; the symbol and name lists are inputs to `Batch.RunBatch`.
- Command-line parsing and all `print` output, including the mismatched-row report, which `Reshape.FilterRows` returns as `skipped` instead.
- `.unique()` on the symbol and name columns: the lists are taken as given.
- Floating point: a converted number is kept as an exact decimal, mantissa and scale. Rounding, `inf`, `nan` and exponent spellings are not modelled; line 82 admits none of these spellings anyway.
- Python's `isdigit` and `float` digit tables are modelled for these scripts only: ASCII, Arabic-Indic, Extended Arabic-Indic, Devanagari and fullwidth decimal digits; superscript, subscript and circled digits. Other Unicode digits are treated as non-digits.
- Python float identity: one `float` value can have several `Cell` forms. `float("80")` and `float("80.0")` are both 80.0, but the model gives `Num(80, 0)` and `Num(800, 1)`. `float("0")` gives `Num(0, 0)`, while the `ValueError` fallback (line 86), the `int` 0 of line 62 and the 0 of `fillna` (line 95) are all `Zero`. Nothing in the modelled lines compares two numbers, so the distinction never changes a result.
- Reshape.ReshapeTable: requires at least one header and at least one kept row. With no kept rows, the source skips the renaming at line 53 and then fails at line 72, unless the first header already reads `year`. That corner case is not modelled.
- Batch.RunBatch: requires every fetched page to be reshapeable; the exception the source raises on any other page is not modelled.
- Duplicate column names: columns are looked up by their first occurrence. pandas returns a DataFrame for `df[col]` in that case. Similarly, a metric whose sanitised name is `Company` is overwritten at line 143 in the model by first occurrence only.
- pandas dtypes and index objects: the row index is renumbered at lines 57, 60 and 144 and never read, so rows are modelled as a plain sequence.
