/** The file loop and the concatenation of PV.py:72-82: keep the tables that
    loaded, in file-list order, concatenate them and sort the result by time. */
module Aggregate {
  import opened Frames
  import opened Loader

  // ------------------------------------------------------ successful loads

  /** The values inside the `Some`s of `s`, in order. */
  function Somes<T>(s: seq<Option<T>>): (r: seq<T>)
    ensures |r| <= |s|
  {
    if s == [] then []
    else (if s[0].Some? then [s[0].value] else []) + Somes(s[1..])
  }

  lemma {:induction false} SomesAppend<T>(a: seq<Option<T>>, b: seq<Option<T>>)
    ensures Somes(a + b) == Somes(a) + Somes(b)
  {
    if a == [] {
      assert a + b == b;
    } else {
      assert (a + b)[0] == a[0] && (a + b)[1..] == a[1..] + b;
      SomesAppend(a[1..], b);
    }
  }

  lemma {:induction false} SomesMembers<T>(s: seq<Option<T>>)
    ensures forall x :: x in Somes(s) <==> exists i :: 0 <= i < |s| && s[i] == Some(x)
    ensures Somes(s) == [] <==> forall i :: 0 <= i < |s| ==> s[i].None?
  {
    if s != [] {
      SomesMembers(s[1..]);
      assert forall i :: 1 <= i < |s| ==> s[i] == s[1..][i - 1];
    }
  }

  /** `f` applied to every element of `s`, in order. */
  function Map<A, B>(s: seq<A>, f: A -> B): (r: seq<B>)
    ensures |r| == |s|
    ensures forall i :: 0 <= i < |s| ==> r[i] == f(s[i])
  {
    seq(|s|, i requires 0 <= i < |s| => f(s[i]))
  }

  lemma MapAppend<A, B>(s: seq<A>, t: seq<A>, f: A -> B)
    ensures Map(s + t, f) == Map(s, f) + Map(t, f)
  {
    var m := Map(s + t, f);
    forall i | 0 <= i < |m|
      ensures m[i] == (Map(s, f) + Map(t, f))[i]
    {
      if i < |s| {
        assert (s + t)[i] == s[i];
      } else {
        assert (s + t)[i] == t[i - |s|];
      }
    }
  }

  /** The values that `f` yields on the elements of `s`, in order. */
  lemma SomesMap<A, B>(s: seq<A>, f: A -> Option<B>)
    ensures forall x :: x in Somes(Map(s, f)) <==> exists i :: 0 <= i < |s| && f(s[i]) == Some(x)
    ensures Somes(Map(s, f)) == [] <==> forall i :: 0 <= i < |s| ==> f(s[i]).None?
  {
    var m := Map(s, f);
    SomesMembers(m);
    forall x
      ensures x in Somes(m) <==> exists i :: 0 <= i < |s| && f(s[i]) == Some(x)
    {
      if x in Somes(m) {
        var i :| 0 <= i < |m| && m[i] == Some(x);
        assert f(s[i]) == Some(x);
      }
    }
  }

  /** `load_pv_data` with a fixed timestamp parser. */
  function LoadWith(parseTime: Value -> Option<Time>): InputFile -> Option<Frame> {
    file => Load(file, parseTime)
  }

  /** The `dataframes` list after the loop of PV.py:74-77: every table that
      loaded, in file-list order. */
  function LoadAll(files: seq<InputFile>, parseTime: Value -> Option<Time>): seq<Frame> {
    Somes(Map(files, LoadWith(parseTime)))
  }

  /** Every table that loads is kept in `dataframes` ... */
  lemma LoadAllKeeps(files: seq<InputFile>, parseTime: Value -> Option<Time>, i: nat)
    requires i < |files| && Load(files[i], parseTime).Some?
    ensures Load(files[i], parseTime).value in LoadAll(files, parseTime)
  {
    var load := LoadWith(parseTime);
    SomesMap(files, load);
    assert load(files[i]) == Load(files[i], parseTime);
  }

  /** ... and `dataframes` holds nothing else. */
  lemma LoadAllOnlyLoaded(files: seq<InputFile>, parseTime: Value -> Option<Time>, f: Frame)
    requires f in LoadAll(files, parseTime)
    ensures exists i :: 0 <= i < |files| && Load(files[i], parseTime) == Some(f)
  {
    var load := LoadWith(parseTime);
    SomesMap(files, load);
    var i :| 0 <= i < |files| && load(files[i]) == Some(f);
    assert Load(files[i], parseTime) == Some(f);
  }

  /** `dataframes` is empty exactly when no file loads. */
  lemma LoadAllEmpty(files: seq<InputFile>, parseTime: Value -> Option<Time>)
    ensures LoadAll(files, parseTime) == [] <==>
      forall i :: 0 <= i < |files| ==> Load(files[i], parseTime).None?
  {
    if LoadAll(files, parseTime) != [] {
      LoadAllOnlyLoaded(files, parseTime, LoadAll(files, parseTime)[0]);
    } else {
      forall i | 0 <= i < |files|
        ensures Load(files[i], parseTime).None?
      {
        if Load(files[i], parseTime).Some? {
          LoadAllKeeps(files, parseTime, i);
        }
      }
    }
  }

  /** ... in file-list order: loading a longer list appends the later files'
      tables after the earlier ones'. */
  lemma LoadAllAppend(files: seq<InputFile>, more: seq<InputFile>, parseTime: Value -> Option<Time>)
    ensures LoadAll(files + more, parseTime) == LoadAll(files, parseTime) + LoadAll(more, parseTime)
  {
    MapAppend(files, more, LoadWith(parseTime));
    SomesAppend(Map(files, LoadWith(parseTime)), Map(more, LoadWith(parseTime)));
  }

  /** One file's contribution to `dataframes`. */
  lemma LoadAllOne(f: InputFile, parseTime: Value -> Option<Time>)
    ensures LoadAll([f], parseTime) == if Load(f, parseTime).Some? then [Load(f, parseTime).value] else []
  {
    assert Map([f], LoadWith(parseTime))[1..] == [];
  }

  /** Every table the loader returns is well formed. */
  lemma LoadAllWellFormed(files: seq<InputFile>, parseTime: Value -> Option<Time>)
    ensures forall i :: 0 <= i < |LoadAll(files, parseTime)| ==> WellFormed(LoadAll(files, parseTime)[i])
  {
    forall i | 0 <= i < |LoadAll(files, parseTime)|
      ensures WellFormed(LoadAll(files, parseTime)[i])
    {
      LoadAllOnlyLoaded(files, parseTime, LoadAll(files, parseTime)[i]);
    }
  }

  // ---------------------------------------------------------- column union

  predicate HasDuplicates(names: seq<string>) {
    exists i, j :: 0 <= i < j < |names| && names[i] == names[j]
  }

  /** `acc` followed by the names of `names` it does not hold yet, each once. */
  function AddNew(acc: seq<string>, names: seq<string>): (r: seq<string>)
    ensures forall x :: x in r <==> x in acc || x in names
    ensures !HasDuplicates(acc) ==> !HasDuplicates(r)
    ensures |acc| <= |r| && r[..|acc|] == acc
    decreases |names|
  {
    if names == [] then acc
    else if names[0] in acc then AddNew(acc, names[1..])
    else
      var next := acc + [names[0]];
      assert !HasDuplicates(acc) ==> !HasDuplicates(next);
      var r := AddNew(next, names[1..]);
      assert r[..|acc|] == r[..|next|][..|acc|];
      r
  }

  /** Names that are all new and all distinct are appended as they are. */
  lemma {:induction false} AddNewFresh(acc: seq<string>, names: seq<string>)
    requires !HasDuplicates(names)
    requires forall x :: x in names ==> x !in acc
    ensures AddNew(acc, names) == acc + names
    decreases |names|
  {
    if names != [] {
      var next := acc + [names[0]];
      forall x | x in names[1..]
        ensures x !in next
      {
        var p :| 0 <= p < |names[1..]| && names[1..][p] == x;
        assert names[p + 1] == x;
      }
      AddNewFresh(next, names[1..]);
      assert next + names[1..] == acc + names;
    }
  }

  function UnionFrom(frames: seq<Frame>, acc: seq<string>): (r: seq<string>)
    ensures forall x :: x in r <==> x in acc || exists i :: 0 <= i < |frames| && x in frames[i].columns
    ensures !HasDuplicates(acc) ==> !HasDuplicates(r)
    ensures |acc| <= |r| && r[..|acc|] == acc
  {
    if frames == [] then acc
    else
      var next := AddNew(acc, frames[0].columns);
      var r := UnionFrom(frames[1..], next);
      assert forall i :: 1 <= i < |frames| ==> frames[i] == frames[1..][i - 1];
      assert r[..|acc|] == r[..|next|][..|acc|];
      r
  }

  /** The union of the tables' columns in order of first appearance, which is
      how `pd.concat` lays out columns that differ between its inputs. */
  function UnionColumns(frames: seq<Frame>): seq<string> {
    UnionFrom(frames, [])
  }

  predicate SameColumns(frames: seq<Frame>)
    requires |frames| > 0
  {
    forall i :: 0 <= i < |frames| ==> frames[i].columns == frames[0].columns
  }

  /** `pd.concat` must reindex a table whose columns differ from the union,
      which raises when that table has a repeated column name. The error is
      outside any `try`, so the script stops. */
  predicate ConcatRaises(frames: seq<Frame>)
    requires |frames| > 0
  {
    !SameColumns(frames) && exists i :: 0 <= i < |frames| && HasDuplicates(frames[i].columns)
  }

  /** The columns of the concatenated table: the common columns as they are,
      otherwise the union, led by the first table's columns in their order. */
  function CombinedColumns(frames: seq<Frame>): (cols: seq<string>)
    requires |frames| > 0
    ensures forall x :: x in cols <==> exists i :: 0 <= i < |frames| && x in frames[i].columns
    ensures SameColumns(frames) ==> cols == frames[0].columns
    ensures !ConcatRaises(frames) && !SameColumns(frames) ==> !HasDuplicates(cols)
    ensures !HasDuplicates(frames[0].columns) ==>
              |frames[0].columns| <= |cols| && cols[..|frames[0].columns|] == frames[0].columns
  {
    if SameColumns(frames) then
      assert forall x :: x in frames[0].columns ==> exists i :: 0 <= i < |frames| && x in frames[i].columns;
      frames[0].columns
    else
      var first := frames[0].columns;
      assert !HasDuplicates(first) ==> AddNew([], first) == first by {
        if !HasDuplicates(first) {
          AddNewFresh([], first);
          assert [] + first == first;
        }
      }
      assert UnionColumns(frames) == UnionFrom(frames[1..], AddNew([], first));
      UnionColumns(frames)
  }

  // ------------------------------------------------------------ row alignment

  /** The cell a row holds under column `name`, missing if it has no such column. */
  function Lookup(cells: seq<Cell>, from: seq<string>, name: string): Cell
    requires |cells| == |from|
  {
    if name in from then cells[IndexOf(from, name)] else None
  }

  /** A row of a table with columns `from`, laid out under the columns `to`. */
  function Align(r: Record, from: seq<string>, to: seq<string>): (a: Record)
    requires |r.cells| == |from|
    ensures a.time == r.time && |a.cells| == |to|
    ensures from == to ==> a == r
    ensures forall j :: 0 <= j < |to| && to[j] !in from ==> a.cells[j].None?
    ensures !HasDuplicates(from) ==>
      forall j, p :: 0 <= j < |to| && 0 <= p < |from| && to[j] == from[p] ==> a.cells[j] == r.cells[p]
  {
    if from == to then r
    else Record(r.time, seq(|to|, j requires 0 <= j < |to| => Lookup(r.cells, from, to[j])))
  }

  function AlignRows(f: Frame, to: seq<string>): (rs: seq<Record>)
    requires WellFormed(f)
    ensures |rs| == |f.rows|
    ensures forall i :: 0 <= i < |rs| ==> rs[i] == Align(f.rows[i], f.columns, to)
  {
    seq(|f.rows|, i requires 0 <= i < |f.rows| => Align(f.rows[i], f.columns, to))
  }

  predicate AllWellFormed(frames: seq<Frame>) {
    forall i :: 0 <= i < |frames| ==> WellFormed(frames[i])
  }

  /** The rows of every table in turn, each laid out under `to`. */
  function ConcatAligned(frames: seq<Frame>, to: seq<string>): (rs: seq<Record>)
    requires AllWellFormed(frames)
    ensures forall i :: 0 <= i < |rs| ==> |rs[i].cells| == |to|
  {
    if frames == [] then []
    else
      assert forall i :: 1 <= i < |frames| ==> frames[i] == frames[1..][i - 1];
      AlignRows(frames[0], to) + ConcatAligned(frames[1..], to)
  }

  /** The rows of every table in turn, as they are. */
  function ConcatRows(frames: seq<Frame>): seq<Record> {
    if frames == [] then [] else frames[0].rows + ConcatRows(frames[1..])
  }

  function TotalRows(frames: seq<Frame>): nat {
    if frames == [] then 0 else |frames[0].rows| + TotalRows(frames[1..])
  }

  lemma {:induction false} ConcatAlignedLength(frames: seq<Frame>, to: seq<string>)
    requires AllWellFormed(frames)
    ensures |ConcatAligned(frames, to)| == TotalRows(frames)
  {
    if frames != [] {
      assert forall i :: 1 <= i < |frames| ==> frames[i] == frames[1..][i - 1];
      ConcatAlignedLength(frames[1..], to);
    }
  }

  /** Tables that already have the target columns are concatenated unchanged. */
  lemma {:induction false} ConcatAlignedSame(frames: seq<Frame>, to: seq<string>)
    requires AllWellFormed(frames)
    requires forall i :: 0 <= i < |frames| ==> frames[i].columns == to
    ensures ConcatAligned(frames, to) == ConcatRows(frames)
  {
    if frames != [] {
      assert forall i :: 1 <= i < |frames| ==> frames[i] == frames[1..][i - 1];
      ConcatAlignedSame(frames[1..], to);
      assert AlignRows(frames[0], to) == frames[0].rows;
    }
  }

  // ----------------------------------------------------------------- concat

  /** A table of shape (0, 0): no columns and no rows. */
  predicate Blank(f: Frame) {
    f.columns == [] && f.rows == []
  }

  function NotBlank(): Frame -> bool {
    f => !Blank(f)
  }

  /** The tables `pd.concat` works on: when some table is not blank, it drops
      the blank ones before it compares column sets; otherwise it keeps all. */
  function ConcatInputs(frames: seq<Frame>): (objs: seq<Frame>)
    requires |frames| > 0
    ensures |objs| > 0
    ensures forall i :: 0 <= i < |objs| ==> objs[i] in frames
    ensures (exists i :: 0 <= i < |frames| && !Blank(frames[i])) ==>
              forall f :: f in objs <==> f in frames && !Blank(f)
    ensures (forall i :: 0 <= i < |frames| ==> Blank(frames[i])) ==> objs == frames
  {
    if exists i :: 0 <= i < |frames| && !Blank(frames[i]) then
      FilterSpec(frames, NotBlank());
      assert |Filter(frames, NotBlank())| > 0 by {
        var i :| 0 <= i < |frames| && !Blank(frames[i]);
        assert frames[i] in Filter(frames, NotBlank());
      }
      Filter(frames, NotBlank())
    else frames
  }

  /** Blank tables contribute no rows, so dropping them leaves the
      concatenated rows as they are. */
  lemma {:induction false} ConcatAlignedDropsBlank(frames: seq<Frame>, to: seq<string>)
    requires AllWellFormed(frames)
    ensures AllWellFormed(Filter(frames, NotBlank()))
    ensures ConcatAligned(Filter(frames, NotBlank()), to) == ConcatAligned(frames, to)
  {
    if frames != [] {
      assert forall i :: 1 <= i < |frames| ==> frames[i] == frames[1..][i - 1];
      ConcatAlignedDropsBlank(frames[1..], to);
      var rest := Filter(frames[1..], NotBlank());
      if !Blank(frames[0]) {
        assert ([frames[0]] + rest)[1..] == rest;
      }
    }
  }

  /** The concatenation of the tables `pd.concat` kept, sorted by time. */
  function ConcatSorted(objs: seq<Frame>): (r: Option<Frame>)
    requires |objs| > 0 && AllWellFormed(objs)
    ensures r.None? <==> ConcatRaises(objs)
    ensures r.Some? ==> WellFormed(r.value) && SortedByTime(r.value.rows)
    ensures r.Some? ==> r.value.columns == CombinedColumns(objs)
  {
    if ConcatRaises(objs) then None
    else
      var cols := CombinedColumns(objs);
      var rows := ConcatAligned(objs, cols);
      SortKeepsWidth(rows, |cols|);
      Some(Frame(cols, SortByTime(rows)))
  }

  /** `pd.concat(dataframes).sort_index()` (PV.py:81-82). */
  function Combine(frames: seq<Frame>): (r: Option<Frame>)
    requires |frames| > 0 && AllWellFormed(frames)
    ensures r.None? <==> ConcatRaises(ConcatInputs(frames))
    ensures r.Some? ==> WellFormed(r.value) && SortedByTime(r.value.rows)
    ensures r.Some? ==> r.value.columns == CombinedColumns(ConcatInputs(frames))
  {
    var objs := ConcatInputs(frames);
    assert AllWellFormed(objs);
    ConcatSorted(objs)
  }

  /** Every input that is not blank has the same columns: `pd.concat` never
      reindexes, so it cannot raise, whatever names those columns repeat. */
  lemma BlankTablesIgnored(frames: seq<Frame>)
    requires |frames| > 0
    requires forall i, j :: 0 <= i < |frames| && 0 <= j < |frames| && !Blank(frames[i]) && !Blank(frames[j]) ==>
               frames[i].columns == frames[j].columns
    ensures SameColumns(ConcatInputs(frames)) && !ConcatRaises(ConcatInputs(frames))
  {
    var objs := ConcatInputs(frames);
    if exists i :: 0 <= i < |frames| && !Blank(frames[i]) {
      forall i | 0 <= i < |objs|
        ensures objs[i].columns == objs[0].columns
      {
        assert objs[i] in objs && objs[0] in objs;
      }
    }
  }

  /** Blank tables change nothing: concatenating with them is concatenating
      without them, as long as some table is not blank. */
  lemma CombineDropsBlank(frames: seq<Frame>)
    requires |frames| > 0 && AllWellFormed(frames)
    requires exists i :: 0 <= i < |frames| && !Blank(frames[i])
    ensures |Filter(frames, NotBlank())| > 0 && AllWellFormed(Filter(frames, NotBlank()))
    ensures Combine(Filter(frames, NotBlank())) == Combine(frames)
  {
    var kept := Filter(frames, NotBlank());
    assert |kept| > 0 by {
      FilterSpec(frames, NotBlank());
      var i :| 0 <= i < |frames| && !Blank(frames[i]);
      assert frames[i] in kept;
    }
    assert AllWellFormed(kept) by {
      ConcatAlignedDropsBlank(frames, []);
    }
    assert ConcatInputs(frames) == kept;
    assert ConcatInputs(kept) == kept by {
      assert !Blank(kept[0]);
      FilterFilter(frames, NotBlank(), NotBlank(), NotBlank());
    }
  }

  /** The combined table has as many rows as its inputs together, holds
      exactly their rows (laid out under the common columns, duplicate keys
      kept) and is sorted by time. */
  lemma CombineSpec(frames: seq<Frame>)
    requires |frames| > 0 && AllWellFormed(frames)
    requires Combine(frames).Some?
    ensures |Combine(frames).value.rows| == TotalRows(frames)
    ensures multiset(Combine(frames).value.rows) ==
      multiset(ConcatAligned(frames, Combine(frames).value.columns))
    ensures SameColumns(frames) ==>
      multiset(Combine(frames).value.rows) == multiset(ConcatRows(frames))
    ensures SortedByTime(Combine(frames).value.rows)
  {
    var objs := ConcatInputs(frames);
    var cols := CombinedColumns(objs);
    ConcatAlignedLength(frames, cols);
    ConcatAlignedDropsBlank(frames, cols);
    assert ConcatAligned(objs, cols) == ConcatAligned(frames, cols);
    if SameColumns(frames) {
      assert objs[0] in frames;
      assert SameColumns(objs) by {
        forall i | 0 <= i < |objs|
          ensures objs[i].columns == objs[0].columns
        {
          assert objs[i] in frames;
        }
      }
      ConcatAlignedSame(frames, cols);
    }
  }

  lemma {:induction false} TotalRowsAppend(a: seq<Frame>, b: seq<Frame>)
    ensures TotalRows(a + b) == TotalRows(a) + TotalRows(b)
  {
    if a == [] {
      assert a + b == b;
    } else {
      assert (a + b)[0] == a[0] && (a + b)[1..] == a[1..] + b;
      TotalRowsAppend(a[1..], b);
    }
  }

  /** Each pass of the file loop (PV.py:72-77) adds the rows of the file's
      table when it loads and no rows otherwise. */
  lemma LoadAllRows(files: seq<InputFile>, f: InputFile, parseTime: Value -> Option<Time>)
    ensures TotalRows(LoadAll(files + [f], parseTime)) ==
      TotalRows(LoadAll(files, parseTime)) +
      (if Load(f, parseTime).Some? then |Load(f, parseTime).value.rows| else 0)
  {
    var one := LoadAll([f], parseTime);
    LoadAllAppend(files, [f], parseTime);
    LoadAllOne(f, parseTime);
    TotalRowsAppend(LoadAll(files, parseTime), one);
    if one != [] {
      assert one[1..] == [];
    }
  }
}
