/** The column loop of PV.py:84-98: every column whose name contains neither
    "Currents" nor "Voltages" is coerced to numbers in place, and those left
    with at least one value are listed for plotting, in column order. */
module Columns {
  import opened Text
  import opened Frames

  /** `'Currents' in col or 'Voltages' in col`: case-sensitive substrings. */
  predicate Blacklisted(name: string) {
    Contains(name, "Currents") || Contains(name, "Voltages")
  }

  /** `pd.to_numeric(..., errors='coerce')` on one cell: numbers stay, text
      that parses becomes its number, anything else becomes missing. */
  function CoerceCell(c: Cell, parseNumber: string -> Option<real>): (d: Cell)
    ensures d.Some? ==> d.value.Number?
    ensures c.None? ==> d.None?
    ensures c.Some? && c.value.Number? ==> d == c
    ensures c.Some? && c.value.Text? ==>
      (d.Some? <==> parseNumber(c.value.text).Some?) &&
      (d.Some? ==> d.value.x == parseNumber(c.value.text).value)
  {
    match c
    case None => None
    case Some(Number(_)) => c
    case Some(Text(t)) =>
      match parseNumber(t)
      case None => None
      case Some(x) => Some(Number(x))
  }

  predicate HasColumn(rows: seq<Record>, j: nat) {
    forall i :: 0 <= i < |rows| ==> j < |rows[i].cells|
  }

  /** `full_df[col] = pd.to_numeric(full_df[col], errors='coerce')` for the
      column at position `j`: that column's cells are coerced, nothing else moves. */
  function CoerceColumn(rows: seq<Record>, j: nat, parseNumber: string -> Option<real>): (out: seq<Record>)
    requires HasColumn(rows, j)
    ensures |out| == |rows| && HasColumn(out, j)
    ensures forall i :: 0 <= i < |rows| ==>
      out[i].time == rows[i].time && |out[i].cells| == |rows[i].cells| &&
      out[i].cells[j] == CoerceCell(rows[i].cells[j], parseNumber) &&
      forall k :: 0 <= k < |rows[i].cells| && k != j ==> out[i].cells[k] == rows[i].cells[k]
  {
    seq(|rows|, i requires 0 <= i < |rows| =>
      rows[i].(cells := rows[i].cells[j := CoerceCell(rows[i].cells[j], parseNumber)]))
  }

  /** `full_df[col].notna().any()`. */
  function AnyPresent(rows: seq<Record>, j: nat): (b: bool)
    requires HasColumn(rows, j)
    ensures b <==> exists i :: 0 <= i < |rows| && rows[i].cells[j].Some?
  {
    if rows == [] then false
    else
      assert forall i :: 1 <= i < |rows| ==> rows[i] == rows[1..][i - 1];
      rows[0].cells[j].Some? || AnyPresent(rows[1..], j)
  }

  // ---------------------------------------------------------- specification

  /** A row once the loop has passed the first `n` columns. */
  function CoerceRecord(r: Record, columns: seq<string>, n: nat, parseNumber: string -> Option<real>): (out: Record)
    requires |r.cells| == |columns|
    ensures out.time == r.time && |out.cells| == |r.cells|
  {
    Record(r.time, seq(|r.cells|, j requires 0 <= j < |r.cells| =>
      if j < n && !Blacklisted(columns[j]) then CoerceCell(r.cells[j], parseNumber) else r.cells[j]))
  }

  /** The table's rows once the loop has passed the first `n` columns. */
  function CoercedUpTo(t: Frame, parseNumber: string -> Option<real>, n: nat): (rows: seq<Record>)
    requires WellFormed(t)
    ensures |rows| == |t.rows| && WellFormed(Frame(t.columns, rows))
  {
    seq(|t.rows|, i requires 0 <= i < |t.rows| => CoerceRecord(t.rows[i], t.columns, n, parseNumber))
  }

  /** Column `j` is plotted: not blacklisted, and a cell survives coercion. */
  predicate Eligible(t: Frame, parseNumber: string -> Option<real>, j: nat)
    requires WellFormed(t) && j < |t.columns|
  {
    !Blacklisted(t.columns[j]) &&
    exists i :: 0 <= i < |t.rows| && CoerceCell(t.rows[i].cells[j], parseNumber).Some?
  }

  /** `cols_to_plot` once the loop has passed the first `n` columns. */
  function PlotColumnsUpTo(t: Frame, parseNumber: string -> Option<real>, n: nat): seq<string>
    requires WellFormed(t) && n <= |t.columns|
  {
    if n == 0 then []
    else
      var before := PlotColumnsUpTo(t, parseNumber, n - 1);
      if Eligible(t, parseNumber, n - 1) then before + [t.columns[n - 1]] else before
  }

  /** The list holds the names of the eligible columns among the first `n`,
      in column order. */
  lemma {:induction false} PlotColumnsUpToSpec(t: Frame, parseNumber: string -> Option<real>, n: nat)
    requires WellFormed(t) && n <= |t.columns|
    ensures forall x :: x in PlotColumnsUpTo(t, parseNumber, n) ==>
      exists j :: 0 <= j < n && t.columns[j] == x && Eligible(t, parseNumber, j)
    ensures forall j :: 0 <= j < n && Eligible(t, parseNumber, j) ==> t.columns[j] in PlotColumnsUpTo(t, parseNumber, n)
    ensures IsSubsequence(PlotColumnsUpTo(t, parseNumber, n), t.columns[..n])
  {
    if n > 0 {
      var before := PlotColumnsUpTo(t, parseNumber, n - 1);
      PlotColumnsUpToSpec(t, parseNumber, n - 1);
      assert t.columns[..n] == t.columns[..n - 1] + [t.columns[n - 1]];
      SubsequenceExtend(before, t.columns[..n - 1], t.columns[n - 1]);
    }
  }

  /** `full_df[col]` on a repeated name selects several columns, and
      `pd.to_numeric` raises on that; the error stops the script. */
  predicate CrashesAt(t: Frame, j: nat)
    requires j < |t.columns|
  {
    !Blacklisted(t.columns[j]) && Count(t.columns, t.columns[j]) > 1
  }

  /** The coerced table and `cols_to_plot`. */
  datatype Selection = Selection(table: Frame, plot: seq<string>)

  /** What the column loop leaves behind, or `None` when it raises. */
  function Classify(t: Frame, parseNumber: string -> Option<real>): (r: Option<Selection>)
    requires WellFormed(t)
    ensures r.None? <==> exists j :: 0 <= j < |t.columns| && CrashesAt(t, j)
    ensures r.Some? ==> r.value.table.columns == t.columns && WellFormed(r.value.table)
    ensures r.Some? ==> |r.value.table.rows| == |t.rows|
    ensures r.Some? && r.value.plot != [] ==> |t.rows| > 0
  {
    if exists j :: 0 <= j < |t.columns| && CrashesAt(t, j) then None
    else
      var n := |t.columns|;
      var rows := CoercedUpTo(t, parseNumber, n);
      var plot := PlotColumnsUpTo(t, parseNumber, n);
      PlotColumnsUpToSpec(t, parseNumber, n);
      assert plot != [] ==> plot[0] in plot;
      Some(Selection(Frame(t.columns, rows), plot))
  }

  // ------------------------------------------------------------- properties

  /** A column is listed for plotting iff its name is not blacklisted and one
      of its cells is present after coercion. */
  lemma ClassifyPlotsEligible(t: Frame, parseNumber: string -> Option<real>)
    requires WellFormed(t) && Classify(t, parseNumber).Some?
    ensures forall j :: 0 <= j < |t.columns| ==>
      (t.columns[j] in Classify(t, parseNumber).value.plot <==> Eligible(t, parseNumber, j))
  {
    var plot := Classify(t, parseNumber).value.plot;
    PlotColumnsUpToSpec(t, parseNumber, |t.columns|);
    forall j | 0 <= j < |t.columns| && t.columns[j] in plot
      ensures Eligible(t, parseNumber, j)
    {
      var j' :| 0 <= j' < |t.columns| && t.columns[j'] == t.columns[j] && Eligible(t, parseNumber, j');
      if j' != j {
        assert !CrashesAt(t, j');
        CountTwice(t.columns, j', j);
        assert false;
      }
    }
  }

  /** `cols_to_plot` follows the table's column order. */
  lemma ClassifyKeepsOrder(t: Frame, parseNumber: string -> Option<real>)
    requires WellFormed(t) && Classify(t, parseNumber).Some?
    ensures IsSubsequence(Classify(t, parseNumber).value.plot, t.columns)
  {
    PlotColumnsUpToSpec(t, parseNumber, |t.columns|);
    assert t.columns[..|t.columns|] == t.columns;
  }

  /** Blacklisted columns keep their cells; every other cell is coerced; the
      row keys do not change. */
  lemma ClassifyCells(t: Frame, parseNumber: string -> Option<real>, i: nat, j: nat)
    requires WellFormed(t) && Classify(t, parseNumber).Some?
    requires i < |t.rows| && j < |t.columns|
    ensures Classify(t, parseNumber).value.table.rows[i].time == t.rows[i].time
    ensures Blacklisted(t.columns[j]) ==>
      Classify(t, parseNumber).value.table.rows[i].cells[j] == t.rows[i].cells[j]
    ensures !Blacklisted(t.columns[j]) ==>
      Classify(t, parseNumber).value.table.rows[i].cells[j] == CoerceCell(t.rows[i].cells[j], parseNumber)
  {
  }

  /** Coercion keeps the row keys, so the classified table is still sorted. */
  lemma ClassifyKeepsSorted(t: Frame, parseNumber: string -> Option<real>)
    requires WellFormed(t) && SortedByTime(t.rows) && Classify(t, parseNumber).Some?
    ensures SortedByTime(Classify(t, parseNumber).value.table.rows)
  {
    var rows := Classify(t, parseNumber).value.table.rows;
    forall i | 0 <= i < |rows|
      ensures rows[i].time == t.rows[i].time
    {
      if |t.columns| > 0 {
        ClassifyCells(t, parseNumber, i, 0);
      } else {
        assert rows == CoercedUpTo(t, parseNumber, 0);
      }
    }
  }

  /** A column of non-numeric text (or nothing) is never plotted. */
  lemma JunkColumnNotPlotted(t: Frame, parseNumber: string -> Option<real>, j: nat)
    requires WellFormed(t) && Classify(t, parseNumber).Some? && j < |t.columns|
    requires forall i :: 0 <= i < |t.rows| ==>
      t.rows[i].cells[j].None? ||
      (t.rows[i].cells[j].value.Text? && parseNumber(t.rows[i].cells[j].value.text).None?)
    ensures t.columns[j] !in Classify(t, parseNumber).value.plot
  {
    ClassifyPlotsEligible(t, parseNumber);
  }

  /** A non-blacklisted column with one numeric cell, whatever else it holds,
      is plotted. */
  lemma NumericColumnPlotted(t: Frame, parseNumber: string -> Option<real>, i: nat, j: nat)
    requires WellFormed(t) && Classify(t, parseNumber).Some?
    requires i < |t.rows| && j < |t.columns| && !Blacklisted(t.columns[j])
    requires t.rows[i].cells[j].Some? && t.rows[i].cells[j].value.Number?
    ensures t.columns[j] in Classify(t, parseNumber).value.plot
  {
    ClassifyPlotsEligible(t, parseNumber);
    assert CoerceCell(t.rows[i].cells[j], parseNumber).Some?;
  }

  /** Passing a blacklisted column changes nothing; passing another coerces it. */
  lemma CoercedStep(t: Frame, parseNumber: string -> Option<real>, j: nat)
    requires WellFormed(t) && j < |t.columns|
    ensures HasColumn(CoercedUpTo(t, parseNumber, j), j)
    ensures Blacklisted(t.columns[j]) ==>
      CoercedUpTo(t, parseNumber, j + 1) == CoercedUpTo(t, parseNumber, j)
    ensures !Blacklisted(t.columns[j]) ==>
      CoercedUpTo(t, parseNumber, j + 1) == CoerceColumn(CoercedUpTo(t, parseNumber, j), j, parseNumber)
  {
    var before := CoercedUpTo(t, parseNumber, j);
    var after := CoercedUpTo(t, parseNumber, j + 1);
    if Blacklisted(t.columns[j]) {
      forall i | 0 <= i < |t.rows|
        ensures after[i] == before[i]
      {
        assert after[i].cells == before[i].cells;
      }
    } else {
      var coerced := CoerceColumn(before, j, parseNumber);
      forall i | 0 <= i < |t.rows|
        ensures after[i] == coerced[i]
      {
        assert after[i].cells == coerced[i].cells;
      }
    }
  }

  /** Before the loop nothing is coerced. */
  lemma CoercedUpToZero(t: Frame, parseNumber: string -> Option<real>)
    requires WellFormed(t)
    ensures CoercedUpTo(t, parseNumber, 0) == t.rows
  {
    var rows := CoercedUpTo(t, parseNumber, 0);
    forall i | 0 <= i < |t.rows|
      ensures rows[i] == t.rows[i]
    {
      assert rows[i].cells == t.rows[i].cells;
    }
  }

  /** At a non-blacklisted column the loop's `notna().any()` test, taken on
      the freshly coerced column, decides eligibility. */
  lemma AnyPresentIsEligible(t: Frame, parseNumber: string -> Option<real>, j: nat)
    requires WellFormed(t) && j < |t.columns| && !Blacklisted(t.columns[j])
    ensures HasColumn(CoercedUpTo(t, parseNumber, j + 1), j)
    ensures AnyPresent(CoercedUpTo(t, parseNumber, j + 1), j) == Eligible(t, parseNumber, j)
  {
    var rows := CoercedUpTo(t, parseNumber, j + 1);
    assert forall i :: 0 <= i < |t.rows| ==> rows[i].cells[j] == CoerceCell(t.rows[i].cells[j], parseNumber);
  }

  lemma ClassifyCompleted(t: Frame, parseNumber: string -> Option<real>)
    requires WellFormed(t)
    requires forall j :: 0 <= j < |t.columns| ==> !CrashesAt(t, j)
    ensures Classify(t, parseNumber) == Some(Selection(Frame(t.columns, CoercedUpTo(t, parseNumber, |t.columns|)),
                                                       PlotColumnsUpTo(t, parseNumber, |t.columns|)))
  {
  }

  /** The loop of PV.py:90-98 over a copy of the table's columns. */
  method SelectColumns(fullDf: Frame, parseNumber: string -> Option<real>) returns (r: Option<Selection>)
    requires WellFormed(fullDf)
    ensures r == Classify(fullDf, parseNumber)
  {
    var allCols := fullDf.columns;
    var rows := fullDf.rows;
    var colsToPlot: seq<string> := [];
    CoercedUpToZero(fullDf, parseNumber);
    for j := 0 to |allCols|
      invariant rows == CoercedUpTo(fullDf, parseNumber, j)
      invariant colsToPlot == PlotColumnsUpTo(fullDf, parseNumber, j)
      invariant forall j' :: 0 <= j' < j ==> !CrashesAt(fullDf, j')
    {
      var col := allCols[j];
      CoercedStep(fullDf, parseNumber, j);
      if Blacklisted(col) {
        assert !CrashesAt(fullDf, j);
        continue;
      }
      if Count(allCols, col) > 1 {
        assert CrashesAt(fullDf, j);
        return None;
      }
      assert !CrashesAt(fullDf, j);
      rows := CoerceColumn(rows, j, parseNumber);
      AnyPresentIsEligible(fullDf, parseNumber, j);
      if AnyPresent(rows, j) {
        colsToPlot := colsToPlot + [col];
      }
    }
    ClassifyCompleted(fullDf, parseNumber);
    r := Some(Selection(Frame(allCols, rows), colsToPlot));
  }
}
