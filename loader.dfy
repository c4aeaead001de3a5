/** `load_pv_data` (PV.py:6-64): find the header row, normalise the column
    names, drop empty rows and rows without a timestamp, parse every timestamp
    with the one fixed format, and sort by it. Any failure yields `None`. */
module Loader {
  import opened Text
  import opened Frames

  const TimestampKey: string := "timestamp"

  // ------------------------------------------------------------- header scan

  /** `line.strip().lower().startswith('timestamp')`. */
  predicate IsHeaderLine(line: string) {
    StartsWith(Lower(Strip(line)), TimestampKey)
  }

  /** The first header line at or after `i`, if any. */
  function HeaderFrom(lines: seq<string>, i: nat): (r: Option<nat>)
    requires i <= |lines|
    ensures r.Some? ==> i <= r.value < |lines| && IsHeaderLine(lines[r.value])
    ensures r.Some? ==> forall j :: i <= j < r.value ==> !IsHeaderLine(lines[j])
    ensures r.None? ==> forall j :: i <= j < |lines| ==> !IsHeaderLine(lines[j])
    decreases |lines| - i
  {
    if i == |lines| then None
    else if IsHeaderLine(lines[i]) then Some(i)
    else HeaderFrom(lines, i + 1)
  }

  /** The zero-based index of the header row of a file, if it has one. */
  function HeaderIndex(lines: seq<string>): Option<nat> {
    HeaderFrom(lines, 0)
  }

  /** The scan loop of PV.py:21-27: stop at the first header line. */
  method FindHeaderRow(lines: seq<string>) returns (headerRowIndex: Option<nat>)
    ensures headerRowIndex == HeaderIndex(lines)
    ensures headerRowIndex.Some? ==> headerRowIndex.value < |lines| && IsHeaderLine(lines[headerRowIndex.value])
    ensures headerRowIndex.Some? ==> forall j :: 0 <= j < headerRowIndex.value ==> !IsHeaderLine(lines[j])
    ensures headerRowIndex.None? ==> forall j :: 0 <= j < |lines| ==> !IsHeaderLine(lines[j])
  {
    headerRowIndex := None;
    var i := 0;
    while i < |lines|
      invariant 0 <= i <= |lines|
      invariant HeaderFrom(lines, i) == HeaderIndex(lines)
    {
      if IsHeaderLine(lines[i]) {
        headerRowIndex := Some(i);
        break;
      }
      i := i + 1;
    }
  }

  // ----------------------------------------------------------------- read_csv

  /** What `pd.read_csv(path, header=h, skip_blank_lines=False)` yields: the
      names on the header line and, per later line, one cell per name. */
  datatype Csv = Csv(header: seq<string>, rows: seq<seq<Cell>>)

  type ParsedCsv = c: Csv | forall i :: 0 <= i < |c.rows| ==> |c.rows[i]| == |c.header|
    witness Csv([], [])

  /** A file named in the script's list: absent, or present with its decoded
      lines and the CSV reader's result for each possible header row (`None`
      when the reader raises). */
  datatype InputFile =
    | NotFound
    | Found(lines: seq<string>, readCsv: nat -> Option<ParsedCsv>)

  // ---------------------------------------------------------- column names

  function StripNames(cols: seq<string>): (names: seq<string>)
    ensures |names| == |cols|
    ensures forall i :: 0 <= i < |cols| ==> names[i] == Strip(cols[i]) && Stripped(names[i])
  {
    seq(|cols|, i requires 0 <= i < |cols| => Strip(cols[i]))
  }

  /** `{c.lower(): c for c in cols}`: later names overwrite earlier ones. */
  function ColMap(cols: seq<string>): map<string, string> {
    if cols == [] then map[]
    else ColMap(cols[..|cols| - 1])[Lower(cols[|cols| - 1]) := cols[|cols| - 1]]
  }

  /** The dictionary has a key for every lower-cased name, mapped to the last
      name in column order that lower-cases to it. */
  lemma {:induction false} ColMapLastWins(cols: seq<string>, key: string)
    ensures key in ColMap(cols) <==> exists i :: 0 <= i < |cols| && Lower(cols[i]) == key
    ensures forall i :: 0 <= i < |cols| && Lower(cols[i]) == key &&
                        (forall j :: i < j < |cols| ==> Lower(cols[j]) != key)
                        ==> ColMap(cols)[key] == cols[i]
  {
    if cols != [] {
      var init := cols[..|cols| - 1];
      ColMapLastWins(init, key);
      assert forall i :: 0 <= i < |init| ==> init[i] == cols[i];
    }
  }

  /** `df.rename(columns={from: to})`: every column named `from` is renamed. */
  function Rename(cols: seq<string>, from: string, to: string): (r: seq<string>)
    ensures |r| == |cols|
    ensures forall i :: 0 <= i < |cols| && cols[i] == from ==> r[i] == to
    ensures forall i :: 0 <= i < |cols| && cols[i] != from ==> r[i] == cols[i]
  {
    seq(|cols|, i requires 0 <= i < |cols| => if cols[i] == from then to else cols[i])
  }

  /** PV.py:43-48: strip every name, then rename the case variant of
      "timestamp" that the dictionary keeps to exactly "timestamp". */
  function NormaliseColumns(cols: seq<string>): (names: seq<string>)
    ensures |names| == |cols|
    ensures forall i :: 0 <= i < |names| ==> Stripped(names[i])
  {
    var stripped := StripNames(cols);
    var colMap := ColMap(stripped);
    if TimestampKey in colMap then Rename(stripped, colMap[TimestampKey], TimestampKey)
    else stripped
  }

  /** When stripped column `i` is the last to lower-case to "timestamp",
      exactly the columns whose stripped name equals it become "timestamp";
      every other column keeps its stripped name. */
  lemma NormaliseRenamesLast(cols: seq<string>, i: nat)
    requires i < |cols| && Lower(Strip(cols[i])) == TimestampKey
    requires forall j :: i < j < |cols| ==> Lower(Strip(cols[j])) != TimestampKey
    ensures forall j :: 0 <= j < |cols| ==>
      NormaliseColumns(cols)[j] == if Strip(cols[j]) == Strip(cols[i]) then TimestampKey else Strip(cols[j])
  {
    ColMapLastWins(StripNames(cols), TimestampKey);
  }

  /** With no case variant of "timestamp" the names are only stripped, and
      none of them is "timestamp". */
  lemma NormaliseWithoutTimestamp(cols: seq<string>)
    requires forall j :: 0 <= j < |cols| ==> Lower(Strip(cols[j])) != TimestampKey
    ensures NormaliseColumns(cols) == StripNames(cols)
    ensures TimestampKey !in NormaliseColumns(cols)
  {
    var names := StripNames(cols);
    ColMapLastWins(names, TimestampKey);
    forall j | 0 <= j < |names|
      ensures names[j] != TimestampKey
    {
      if names[j] == TimestampKey {
        LowerTimestampKey();
      }
    }
  }

  lemma LowerTimestampKey()
    ensures Lower(TimestampKey) == TimestampKey
  {
  }

  /** `df['timestamp']` names a single column only when exactly one column
      is called "timestamp"; otherwise it raises or selects several columns
      and the timestamp parse raises. */
  function TimestampColumn(names: seq<string>): (k: Option<nat>)
    ensures k.Some? ==> k.value < |names| && names[k.value] == TimestampKey
    ensures k.Some? ==> forall j :: 0 <= j < |names| && j != k.value ==> names[j] != TimestampKey
    ensures k.None? ==>
      || TimestampKey !in names
      || exists i, j :: 0 <= i < j < |names| && names[i] == TimestampKey && names[j] == TimestampKey
  {
    if Count(names, TimestampKey) == 1 then
      var k := IndexOf(names, TimestampKey);
      CountOnce(names, k);
      Some(k)
    else if TimestampKey in names then
      CountAboveOne(names, TimestampKey);
      None
    else
      None
  }

  // -------------------------------------------------------------------- rows

  predicate AllMissing(row: seq<Cell>) {
    forall i :: 0 <= i < |row| ==> row[i].None?
  }

  predicate HasTimestamp(row: seq<Cell>, k: nat) {
    k < |row| && row[k].Some?
  }

  /** The timestamp cell of a row that has one. */
  function TimestampOf(row: seq<Cell>, k: nat): Value
    requires HasTimestamp(row, k)
  {
    row[k].value
  }

  function NotAllMissing(): seq<Cell> -> bool {
    row => !AllMissing(row)
  }

  function TimestampPresent(k: nat): seq<Cell> -> bool {
    row => HasTimestamp(row, k)
  }

  /** `df.dropna(how='all')` then `df[df['timestamp'].notna()]` (PV.py:51-52). */
  function CleanRows(rows: seq<seq<Cell>>, k: nat): seq<seq<Cell>> {
    Filter(Filter(rows, NotAllMissing()), TimestampPresent(k))
  }

  /** Cleanup keeps, in their order and with every copy, exactly the rows
      whose timestamp is present; dropping all-missing rows first removes
      nothing more. */
  lemma CleanRowsSpec(rows: seq<seq<Cell>>, k: nat)
    ensures CleanRows(rows, k) == Filter(rows, TimestampPresent(k))
    ensures IsSubsequence(CleanRows(rows, k), rows)
    ensures forall row :: row in CleanRows(rows, k) <==> row in rows && HasTimestamp(row, k)
    ensures forall row ::
              multiset(CleanRows(rows, k))[row] == (if HasTimestamp(row, k) then multiset(rows)[row] else 0)
  {
    var p := NotAllMissing();
    var q := TimestampPresent(k);
    assert CleanRows(rows, k) == Filter(rows, q) by {
      forall row: seq<Cell>
        ensures q(row) == (p(row) && q(row))
      {
        if HasTimestamp(row, k) {
          assert !AllMissing(row) by {
            assert row[k].Some?;
          }
        }
      }
      FilterFilter(rows, p, q, q);
    }
    FilterSpec(rows, q);
  }

  /** `pd.to_datetime(df['timestamp'], format=...)` followed by
      `set_index('timestamp')`: all or nothing, one failed cell fails it all. */
  function ParseTimestamps(rows: seq<seq<Cell>>, k: nat, parseTime: Value -> Option<Time>): (r: Option<seq<Record>>)
    requires forall i :: 0 <= i < |rows| ==> HasTimestamp(rows[i], k)
    ensures r.None? <==> exists i :: 0 <= i < |rows| && parseTime(TimestampOf(rows[i], k)).None?
    ensures r.Some? ==> |r.value| == |rows|
    ensures r.Some? ==> forall i :: 0 <= i < |rows| ==>
      r.value[i] == Record(parseTime(TimestampOf(rows[i], k)).value, RemoveAt(rows[i], k))
  {
    if rows == [] then Some([])
    else
      var rest := ParseTimestamps(rows[1..], k, parseTime);
      assert forall i :: 1 <= i < |rows| ==> rows[i] == rows[1..][i - 1];
      match parseTime(TimestampOf(rows[0], k))
      case None => None
      case Some(t) =>
        if rest.None? then None
        else Some([Record(t, RemoveAt(rows[0], k))] + rest.value)
  }

  /** The specification of the `try` block (PV.py:41-60) once the CSV is
      read; `NormaliseCsv` is the block statement by statement. The loaded
      table's columns are the normalised names without the index column. */
  function Normalise(csv: ParsedCsv, parseTime: Value -> Option<Time>): (r: Option<Frame>)
    ensures TimestampColumn(NormaliseColumns(csv.header)).None? ==> r.None?
    ensures r.Some? ==>
              && TimestampColumn(NormaliseColumns(csv.header)).Some?
              && r.value.columns == RemoveAt(NormaliseColumns(csv.header), TimestampColumn(NormaliseColumns(csv.header)).value)
    ensures r.Some? ==> WellFormed(r.value) && SortedByTime(r.value.rows)
    ensures r.Some? ==> |r.value.columns| + 1 == |csv.header|
    ensures r.Some? ==> TimestampKey !in r.value.columns
  {
    var names := NormaliseColumns(csv.header);
    match TimestampColumn(names)
    case None => None
    case Some(k) =>
      var kept := CleanRows(csv.rows, k);
      CleanRowsSpec(csv.rows, k);
      match ParseTimestamps(kept, k, parseTime)
      case None => None
      case Some(records) =>
        ParsedWidth(csv, k, parseTime);
        Some(IndexedFrame(names, k, records))
  }

  /** `set_index` then `sort_index`: the key column leaves the columns and
      the records are sorted by their parsed keys. */
  function IndexedFrame(names: seq<string>, k: nat, records: seq<Record>): (f: Frame)
    requires TimestampColumn(names) == Some(k)
    requires forall r :: r in records ==> |r.cells| == |names| - 1
    ensures f.columns == RemoveAt(names, k) && TimestampKey !in f.columns
    ensures WellFormed(f) && SortedByTime(f.rows)
    ensures multiset(f.rows) == multiset(records)
  {
    SortKeepsWidth(records, |names| - 1);
    Frame(RemoveAt(names, k), SortByTime(records))
  }

  /** Every parsed record has one cell fewer than the header has names. */
  lemma ParsedWidth(csv: ParsedCsv, k: nat, parseTime: Value -> Option<Time>)
    requires k < |csv.header|
    requires forall i :: 0 <= i < |CleanRows(csv.rows, k)| ==> HasTimestamp(CleanRows(csv.rows, k)[i], k)
    requires ParseTimestamps(CleanRows(csv.rows, k), k, parseTime).Some?
    ensures forall r :: r in ParseTimestamps(CleanRows(csv.rows, k), k, parseTime).value ==>
      |r.cells| == |csv.header| - 1
  {
    var kept := CleanRows(csv.rows, k);
    CleanRowsSpec(csv.rows, k);
    forall i | 0 <= i < |kept|
      ensures |kept[i]| == |csv.header|
    {
      assert kept[i] in csv.rows;
    }
  }

  /** A successful load is a permutation of the cleaned rows with their keys
      parsed, and fails exactly when a kept timestamp does not parse. */
  lemma NormaliseSpec(csv: ParsedCsv, parseTime: Value -> Option<Time>, k: nat)
    requires TimestampColumn(NormaliseColumns(csv.header)) == Some(k)
    ensures forall i :: 0 <= i < |CleanRows(csv.rows, k)| ==> HasTimestamp(CleanRows(csv.rows, k)[i], k)
    ensures Normalise(csv, parseTime).None? <==>
      exists i :: 0 <= i < |CleanRows(csv.rows, k)| && parseTime(TimestampOf(CleanRows(csv.rows, k)[i], k)).None?
    ensures Normalise(csv, parseTime).Some? ==>
      multiset(Normalise(csv, parseTime).value.rows) == multiset(ParseTimestamps(CleanRows(csv.rows, k), k, parseTime).value)
  {
    CleanRowsSpec(csv.rows, k);
  }

  // --------------------------------------------------------------- the loader

  /** The specification of `load_pv_data(filename)`: a table, or `None`
      after a diagnostic. `LoadPvData` is the function statement by statement. */
  function Load(file: InputFile, parseTime: Value -> Option<Time>): (r: Option<Frame>)
    ensures file.NotFound? ==> r.None?
    ensures file.Found? && HeaderIndex(file.lines).None? ==> r.None?
    ensures r.Some? ==> WellFormed(r.value) && SortedByTime(r.value.rows)
  {
    match file
    case NotFound => None
    case Found(lines, readCsv) =>
      match HeaderIndex(lines)
      case None => None
      case Some(h) =>
        match readCsv(h)
        case None => None
        case Some(csv) => Normalise(csv, parseTime)
  }

  /** The body of the `try` block (PV.py:41-60) statement by statement, proved
      equal to its specification `Normalise`; the in-place updates of `df`
      are reassignments of its columns and rows. */
  method NormaliseCsv(csv: ParsedCsv, parseTime: Value -> Option<Time>) returns (df: Option<Frame>)
    ensures df == Normalise(csv, parseTime)
  {
    var columns := StripNames(csv.header);
    var colMap := ColMap(columns);
    if TimestampKey in colMap {
      columns := Rename(columns, colMap[TimestampKey], TimestampKey);
    }
    assert columns == NormaliseColumns(csv.header);
    var rows := Filter(csv.rows, NotAllMissing());
    var k := TimestampColumn(columns);
    if k.None? {
      return None;   // `df['timestamp']` raised or selected several columns
    }
    rows := Filter(rows, TimestampPresent(k.value));
    CleanRowsSpec(csv.rows, k.value);
    var records := ParseTimestamps(rows, k.value, parseTime);
    if records.None? {
      return None;   // `to_datetime` raised
    }
    df := Some(Frame(RemoveAt(columns, k.value), SortByTime(records.value)));
  }

  /** `load_pv_data(filename)` statement by statement, proved equal to its
      specification `Load`. */
  method LoadPvData(file: InputFile, parseTime: Value -> Option<Time>) returns (df: Option<Frame>)
    ensures df == Load(file, parseTime)
  {
    if file.NotFound? {
      return None;   // PV.py:16-18
    }
    var headerRowIndex := FindHeaderRow(file.lines);
    if headerRowIndex.None? {
      return None;   // PV.py:35-37
    }
    var csv := file.readCsv(headerRowIndex.value);
    if csv.None? {
      return None;   // read_csv raised (PV.py:62-64)
    }
    df := NormaliseCsv(csv.value, parseTime);
  }
}
