# PV data overview: a Dafny model

`PV.py` is a batch script that loads photovoltaic measurement logs from a few
CSV files. For each file it:

- finds the header row by scanning the raw lines;
- normalises the timestamp column's name;
- drops empty rows and rows without a timestamp;
- parses every timestamp with one fixed format, indexes the table by it and
  sorts it.

It then concatenates the tables in file-list order and sorts the result again.
It coerces every column whose name contains neither "Currents" nor "Voltages"
to numbers, and keeps for plotting those columns left with at least one value.
Finally it draws one panel per kept column, or reports that there was no data
or nothing numeric to plot.

This project models that decision logic and proves what it promises. pandas
is abstracted as follows:

- a table (`Frames.Frame`) is a sequence of column names plus rows keyed by a
  parsed timestamp;
- a cell is an optional text or number value;
- the CSV reader and the two pandas parsers are function parameters:
  - `readCsv` gives, per header row, the names and rows or `None` when the
    reader raises;
  - `parseTime` stands in for `to_datetime` with the fixed format;
  - `parseNumber` stands in for `to_numeric` on one text cell.

Modules, one file each:

- `text.dfy` (`Text`): the Python string operations the script uses:
  `strip`, `lower`, `startswith`, and the substring test `in`.
- `frames.dfy` (`Frames`): cells, records, tables, and the sequence operations
  pandas provides: filtering, sorting by the index, the index minimum and
  maximum.
- `loader.dfy` (`Loader`): `load_pv_data`.
  - `Load` is its specification; `LoadPvData` follows the source statement by
    statement.
  - `FindHeaderRow` is the header scan loop.
  - `NormaliseCsv` is the body of the `try` block. It reassigns the table's
    columns and rows where the source updates `df` in place.
- `aggregate.dfy` (`Aggregate`): the file loop, and `pd.concat` followed by
  `sort_index`. When some table is not blank, `pd.concat` first drops the
  blank tables, those with no columns and no rows. Only then does it compare
  column sets.
- `columns.dfy` (`Columns`): the column loop.
  - `Classify` is its specification.
  - `SelectColumns` is the loop itself. It reassigns `rows` where the source
    overwrites `full_df[col]`, and appends to the plot list.
- `script.dfy` (`Script`): the top level.
  - A run ends in one of four ways: no data loaded, an uncaught pandas error,
    no numeric column, or a figure.
  - `RunScript` is proved equal to the specification `Run`.

Two facts about the time index:

- `sort_index` (PV.py:57, 82) only sorts, so duplicate timestamps are kept and
  the order is non-decreasing.
- `to_datetime` (PV.py:55) runs without `errors='coerce'`, so one bad
  timestamp fails the whole file; the `except` at PV.py:62-64 then skips that
  file.

Errors the code does not catch end the run as `Crashed`:

- the `pd.concat` reindexing error. It happens when the tables left after the
  blank ones are dropped do not all share their columns, and one of them
  repeats a column name;
- the `to_numeric` error for a repeated non-blacklisted column name.

## Model

| member | source | states |
|---|---|---|
| Text.Strip | PV.py:25 | the result has no whitespace at either end, and it occurs in the input with only whitespace before and after it |
| Text.Contains | PV.py:91 | `p in s` holds exactly when `p` occurs in `s` at some position |
| Text.Lower | PV.py:25 | same length; every character is lower-cased independently (ASCII letters only, see Left out) |
| Loader.HeaderFrom | PV.py:24-27 | when it finds a line, that line is a header line and no earlier line from the start is; when it finds none, no line from the start is a header line |
| Loader.FindHeaderRow | PV.py:21-27 | the loop with `break` returns the index of the first line whose stripped, lower-cased text starts with "timestamp", or `None` when no line does |
| Loader.StripNames | PV.py:43 | one name per column, each the stripped original and free of whitespace at both ends |
| Loader.ColMapLastWins | PV.py:46 | the dictionary has a key exactly when some name lower-cases to it, and that key maps to the last such name in column order |
| Loader.Rename | PV.py:48 | every column equal to the old name gets the new name; every other column keeps its name |
| Loader.NormaliseColumns | PV.py:43-48 | the number of columns is kept and every name is stripped |
| Loader.NormaliseRenamesLast | PV.py:43-48 | when stripped column `i` is the last to lower-case to "timestamp", exactly the columns whose stripped name equals it become "timestamp", and every other column keeps its stripped name |
| Loader.NormaliseWithoutTimestamp | PV.py:46-48 | with no case variant of "timestamp", the names are only stripped and none of them is "timestamp" |
| Loader.TimestampColumn | PV.py:52-56 | returns the position of "timestamp" when exactly one column has that name; otherwise the column is absent or repeated, so `df['timestamp']` cannot give one column |
| Loader.CleanRowsSpec | PV.py:51-52 | dropping all-missing rows and then rows without a timestamp keeps, in order, exactly the rows with a timestamp, every copy of each; the first drop removes nothing more |
| Loader.ParseTimestamps | PV.py:55-56 | fails exactly when some kept timestamp does not parse; otherwise gives one record per row, in order, keyed by the parsed time, with the timestamp cell removed |
| Loader.ParsedWidth | PV.py:56 | every parsed record has one cell fewer than the header has names |
| Loader.IndexedFrame | PV.py:56-57 | setting the index removes the key column from the columns, and sorting leaves a well-formed table whose rows are the parsed records, permuted into time order |
| Loader.Normalise | PV.py:41-60 | no usable timestamp column means failure; a result is well formed, sorted by time, and its columns are exactly the normalised header names with the "timestamp" column removed, in header order, so it has one column fewer than the header and "timestamp" is not among them |
| Loader.NormaliseSpec | PV.py:51-57 | every kept row has a timestamp; the load fails exactly when a kept timestamp does not parse; otherwise the rows are a permutation of the parsed kept rows |
| Loader.NormaliseCsv | PV.py:41-57 | the in-place statements of the `try` block compute `Normalise` |
| Loader.Load | PV.py:6-64 | a missing file or a file without a header row yields `None`; a loaded table is well formed and sorted by time |
| Loader.LoadPvData | PV.py:6-64 | the function body computes `Load` |
| Frames.FilterSpec | PV.py:51-52 | filtering keeps exactly the elements that pass, as a subsequence, with every copy of a passing element kept and none of a failing one |
| Frames.RemoveAt | PV.py:56 | `set_index` removes the cell at the index column; cells before it keep their place and cells after it move one left |
| Frames.SortByTime | PV.py:57 | the rows come out sorted by non-decreasing time, as a permutation of the input |
| Frames.SortKeepsWidth | PV.py:82 | sorting does not change the width of any row |
| Frames.MinTime | PV.py:119 | a lower bound of every row's time that some row attains |
| Frames.MaxTime | PV.py:119 | an upper bound of every row's time that some row attains |
| Frames.SortedRange | PV.py:119 | on sorted rows the minimum and maximum times are those of the first and last rows |
| Aggregate.LoadAllKeeps | PV.py:74-77 | every table a file yields is in `dataframes` |
| Aggregate.LoadAllOnlyLoaded | PV.py:74-77 | every table in `dataframes` was yielded by some file |
| Aggregate.LoadAllEmpty | PV.py:74-79 | `dataframes` is empty exactly when no file loads |
| Aggregate.LoadAllAppend | PV.py:74-77 | loading a longer file list appends the later files' tables after the earlier ones', so the list is in file-list order |
| Aggregate.LoadAllOne | PV.py:75-77 | one file adds its table when it loads and nothing otherwise |
| Aggregate.LoadAllWellFormed | PV.py:72-77 | every table in `dataframes` is well formed |
| Aggregate.AddNew | PV.py:81 | the result holds exactly the old and the new names, keeps the old names as its prefix, and adds no repeats |
| Aggregate.UnionFrom | PV.py:81 | the result holds exactly the names of every table, keeps the starting list as its prefix, and has no repeats when the starting list has none |
| Aggregate.AddNewFresh | PV.py:81 | distinct names none of which is already held are appended in their own order |
| Aggregate.CombinedColumns | PV.py:81 | the combined columns are exactly the names of the inputs' columns; when all tables share their columns they are those columns in their order; otherwise there are no repeats when concatenation succeeds; and the first table's columns lead in their own order when that table repeats no name |
| Aggregate.Align | PV.py:81 | a row moved under the union of the columns keeps its key, has one cell per target column, is missing under names its table lacks, and, when its table repeats no name, keeps each cell under its own name |
| Aggregate.ConcatAlignedLength | PV.py:81 | concatenation has as many rows as its inputs together |
| Aggregate.ConcatAlignedSame | PV.py:81 | tables that share their columns are concatenated unchanged |
| Aggregate.TotalRowsAppend | PV.py:81 | the row count of the concatenation of two lists of tables is the sum of their row counts |
| Aggregate.LoadAllRows | PV.py:72-77 | each pass of the file loop adds the rows of the file's table when it loads and no rows otherwise |
| Aggregate.ConcatInputs | PV.py:81 | when some table is not blank, the inputs kept are exactly the tables that are not blank; when all are blank, all are kept; there is always at least one |
| Aggregate.ConcatAlignedDropsBlank | PV.py:81 | dropping the blank tables leaves the concatenated rows unchanged |
| Aggregate.ConcatSorted | PV.py:81-82 | on the kept inputs: fails exactly when their columns differ and one of them repeats a name; otherwise the result is well formed, sorted by time, and laid out under their combined columns |
| Aggregate.Combine | PV.py:81-82 | fails exactly when the tables left after dropping the blank ones differ in their columns and one of them repeats a name; otherwise the result is well formed, sorted by time, and laid out under those tables' combined columns |
| Aggregate.BlankTablesIgnored | PV.py:81 | when every table that is not blank has the same columns, concatenation does not reindex and cannot fail, whatever names those columns repeat |
| Aggregate.CombineDropsBlank | PV.py:81-82 | when some table is not blank, concatenating with the blank tables gives the same result as concatenating without them |
| Aggregate.CombineSpec | PV.py:81-82 | the combined table has as many rows as the inputs together and holds exactly their rows as a permutation (unchanged when the columns agree), sorted by time |
| Columns.CoerceCell | PV.py:95 | a number stays as it is, text becomes its number when it parses and missing otherwise, and a missing cell stays missing |
| Columns.CoerceColumn | PV.py:95 | only the given column's cells are coerced; keys, widths and every other cell are kept |
| Columns.AnyPresent | PV.py:97 | true exactly when some row has a value in the column |
| Columns.PlotColumnsUpToSpec | PV.py:90-98 | after the first `n` columns the plot list holds exactly the eligible ones among them, in column order |
| Columns.Classify | PV.py:90-98 | fails exactly when some non-blacklisted column name is repeated; otherwise keeps the columns and row count, and a non-empty plot list implies a non-empty table |
| Columns.ClassifyPlotsEligible | PV.py:91-98 | a column is plotted exactly when its name contains neither "Currents" nor "Voltages" and one of its cells is present after coercion |
| Columns.ClassifyKeepsOrder | PV.py:90-98 | the plot list follows the table's column order |
| Columns.ClassifyCells | PV.py:91-95 | blacklisted columns keep their cells, every other cell is coerced, and row keys do not change |
| Columns.ClassifyKeepsSorted | PV.py:95 | coercion leaves the table sorted by time |
| Columns.JunkColumnNotPlotted | PV.py:95-98 | a column holding only missing cells and unparseable text is never plotted |
| Columns.NumericColumnPlotted | PV.py:95-98 | a non-blacklisted column with a numeric cell is always plotted |
| Columns.SelectColumns | PV.py:85-98 | the loop that coerces each column, reassigning the rows, and appends to `cols_to_plot` computes `Classify` |
| Script.RunNoData | PV.py:79-130 | a run reports "No data loaded." exactly when no file loads |
| Script.ReportPlotted | PV.py:101-119 | a figure has at least one panel; each panel is a non-blacklisted column with a value, in column order; the table is sorted; and the shared time axis runs from the first row's timestamp to the last's |
| Script.ReportKeepsRows | PV.py:81-98 | when the run reaches the column loop, the final table has as many rows as the loaded tables together |
| Script.ReportCrashes | PV.py:81-95 | a run stops with an error in two cases, and only those: concatenation must reindex a kept (non-blank) table with a repeated column name, or the column loop meets a repeated non-blacklisted name |
| Script.RunScript | PV.py:72-130 | the script's statements compute `Run`: the file loop, concatenation, the column loop and the choice of outcome |

## Left out

- Path resolution, the `__file__`/`getcwd` fallback and the existence check (PV.py:9-18) are operating-system I/O. A file is given as `NotFound` or as its lines and its reader.
- Text decoding, the BOM and the Latin-1 fallback of the header scan (PV.py:22-33) are left out. The header scan receives the decoded lines.
- CSV tokenisation by `pd.read_csv` (PV.py:41) is not modelled. This covers quoting, type inference, blank lines and the renaming of repeated header names. The reader is a per-file parameter from header row to names and rectangular rows, or `None` when it raises.
- The model does not relate a file's lines to what its reader returns.
- The internals of `pd.to_datetime` with `%m/%d/%Y %H:%M:%S` (PV.py:55) and of `pd.to_numeric` (PV.py:95) are library parsers. They are the parameters `parseTime` and `parseNumber`.
- Times are integers, because only their order matters here.
- Numbers are mathematical reals: floating point, NaN and infinity are not modelled.
- Text.Lower: only ASCII letters are lower-cased. Python lower-cases all of Unicode, but no non-ASCII character lower-cases to a single character of "timestamp". So the header test and the lookup of the "timestamp" key agree with Python. Other keys of the rename dictionary may differ, and they are never read.
- Frames.SortByTime: its contract states only sortedness and permutation. The model sorts by insertion, which keeps equal keys in their original order, but pandas does not promise a stable sort, so no order among equal timestamps is claimed.
- Aggregate.CombinedColumns: when the tables' columns differ, the model lays them out as their union in order of first appearance, which is how `pd.concat` combines unequal column sets without sorting. The contract states that the first table's columns lead in their order, but it leaves the order of the names that later tables add unstated.
- The console diagnostics (PV.py:17, 36, 59, 63, 88, 127, 130) become the `None` results and the `Outcome` values.
- The hard-coded file list (PV.py:66-70) is the `files` parameter.
- All plotting is left out (PV.py:106-125): panel sizes, markers, legends, grid, the y-limit padding (floating point), the date-only title, and saving and showing the figure. A figure is recorded as its panel list and its x-axis range.

