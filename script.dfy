/** The top level of PV.py (lines 66-130): load every listed file, combine
    the tables, classify the columns and decide whether a figure is drawn. */
module Script {
  import opened Frames
  import opened Loader
  import opened Aggregate
  import opened Columns

  /** How a run of the script ends. */
  datatype Outcome =
    | NoDataLoaded                  // "No data loaded." (PV.py:129-130)
    | Crashed                       // a pandas error outside any `try`
    | NoNumericColumns(table: Frame) // "No numeric data columns found to plot." (PV.py:126-127)
      /** One stacked panel per name in `panels`, sharing the time axis,
          whose range is set to [start, end] (PV.py:104-125). */
    | Plotted(table: Frame, panels: seq<string>, start: Time, end: Time)

  /** What the script does with the `dataframes` list (PV.py:79-130). */
  function Report(frames: seq<Frame>, parseNumber: string -> Option<real>): Outcome
    requires AllWellFormed(frames)
  {
    if frames == [] then NoDataLoaded
    else
      match Combine(frames)
      case None => Crashed
      case Some(full) =>
        match Classify(full, parseNumber)
        case None => Crashed
        case Some(sel) =>
          if sel.plot == [] then NoNumericColumns(sel.table)
          else Plotted(sel.table, sel.plot, MinTime(sel.table.rows), MaxTime(sel.table.rows))
  }

  /** The whole run as a function of the files and the two parsers. */
  function Run(files: seq<InputFile>, parseTime: Value -> Option<Time>,
               parseNumber: string -> Option<real>): Outcome
  {
    LoadAllWellFormed(files, parseTime);
    Report(LoadAll(files, parseTime), parseNumber)
  }

  /** Nothing is plotted, and "No data loaded." is the end, exactly when no
      file loads. */
  lemma RunNoData(files: seq<InputFile>, parseTime: Value -> Option<Time>,
                  parseNumber: string -> Option<real>)
    ensures Run(files, parseTime, parseNumber) == NoDataLoaded <==>
      forall i :: 0 <= i < |files| ==> Load(files[i], parseTime).None?
  {
    var out := Run(files, parseTime, parseNumber);
    assert out == NoDataLoaded <==> LoadAll(files, parseTime) == [];
    LoadAllEmpty(files, parseTime);
  }

  /** A classified table with something to plot: the panels are eligible
      columns in column order, the rows are still sorted, and the axis range
      runs from the first row's key to the last's. */
  lemma PlottedSelection(t: Frame, parseNumber: string -> Option<real>, table: Frame, panels: seq<string>)
    requires WellFormed(t) && SortedByTime(t.rows)
    requires Classify(t, parseNumber) == Some(Selection(table, panels)) && panels != []
    ensures IsSubsequence(panels, table.columns)
    ensures forall j :: 0 <= j < |table.columns| && table.columns[j] in panels ==>
      !Blacklisted(table.columns[j]) &&
      exists i :: 0 <= i < |table.rows| && table.rows[i].cells[j].Some?
    ensures SortedByTime(table.rows) && table.rows != []
    ensures MinTime(table.rows) == table.rows[0].time
    ensures MaxTime(table.rows) == table.rows[|table.rows| - 1].time
  {
    ClassifyKeepsOrder(t, parseNumber);
    ClassifyPlotsEligible(t, parseNumber);
    ClassifyKeepsSorted(t, parseNumber);
    forall j | 0 <= j < |t.columns| && t.columns[j] in panels
      ensures exists i :: 0 <= i < |table.rows| && table.rows[i].cells[j].Some?
    {
      var i :| 0 <= i < |t.rows| && CoerceCell(t.rows[i].cells[j], parseNumber).Some?;
      ClassifyCells(t, parseNumber, i, j);
    }
    SortedRange(table.rows);
  }

  /** A drawn figure has at least one panel, every panel is a plot-eligible
      column of the combined table in column order, the table is sorted by
      time, and the shared axis spans exactly its first to its last
      timestamp. */
  lemma ReportPlotted(frames: seq<Frame>, parseNumber: string -> Option<real>,
                      table: Frame, panels: seq<string>, start: Time, end: Time)
    requires AllWellFormed(frames)
    requires Report(frames, parseNumber) == Plotted(table, panels, start, end)
    ensures panels != [] && IsSubsequence(panels, table.columns)
    ensures forall j :: 0 <= j < |table.columns| && table.columns[j] in panels ==>
      !Blacklisted(table.columns[j]) &&
      exists i :: 0 <= i < |table.rows| && table.rows[i].cells[j].Some?
    ensures SortedByTime(table.rows) && table.rows != []
    ensures start == table.rows[0].time && end == table.rows[|table.rows| - 1].time
  {
    var full := Combine(frames).value;
    assert Classify(full, parseNumber) == Some(Selection(table, panels));
    assert start == MinTime(table.rows) && end == MaxTime(table.rows);
    PlottedSelection(full, parseNumber, table, panels);
  }

  /** When the run gets as far as classifying columns, the table it ends with
      holds as many rows as the loaded tables together. */
  lemma ReportKeepsRows(frames: seq<Frame>, parseNumber: string -> Option<real>)
    requires AllWellFormed(frames)
    requires Report(frames, parseNumber).NoNumericColumns? || Report(frames, parseNumber).Plotted?
    ensures |Report(frames, parseNumber).table.rows| == TotalRows(frames)
  {
    CombineSpec(frames);
  }

  /** The run stops with an error exactly when concatenation must reindex a
      table with a repeated column name, or a repeated name survives to the
      column loop without being blacklisted. */
  lemma ReportCrashes(frames: seq<Frame>, parseNumber: string -> Option<real>)
    requires AllWellFormed(frames) && frames != []
    ensures Report(frames, parseNumber) == Crashed <==>
      || ConcatRaises(ConcatInputs(frames))
      || exists j :: 0 <= j < |CombinedColumns(ConcatInputs(frames))| && CrashesAt(Combine(frames).value, j)
  {
  }

  /** The script's statements from PV.py:72 on. */
  method RunScript(files: seq<InputFile>, parseTime: Value -> Option<Time>,
                   parseNumber: string -> Option<real>) returns (outcome: Outcome)
    ensures outcome == Run(files, parseTime, parseNumber)
  {
    var dataframes: seq<Frame> := [];
    for i := 0 to |files|
      invariant dataframes == LoadAll(files[..i], parseTime)
    {
      var df := LoadPvData(files[i], parseTime);
      assert files[..i + 1] == files[..i] + [files[i]];
      LoadAllAppend(files[..i], [files[i]], parseTime);
      LoadAllOne(files[i], parseTime);
      if df.Some? {
        dataframes := dataframes + [df.value];
      }
    }
    assert files[..|files|] == files;
    if dataframes == [] {
      return NoDataLoaded;
    }
    LoadAllWellFormed(files, parseTime);
    var fullDf := Combine(dataframes);
    if fullDf.None? {
      return Crashed;
    }
    var selection := SelectColumns(fullDf.value, parseNumber);
    if selection.None? {
      return Crashed;
    }
    var sel := selection.value;
    if |sel.plot| > 0 {
      outcome := Plotted(sel.table, sel.plot, MinTime(sel.table.rows), MaxTime(sel.table.rows));
    } else {
      outcome := NoNumericColumns(sel.table);
    }
  }
}
