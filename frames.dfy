/** The data model shared by the loader, the aggregation and the column
    selection: cells, time-keyed records, tables, and the generic sequence
    operations (filter, sort by time) the script gets from pandas. */
module Frames {

  datatype Option<T> = None | Some(value: T)

  /** A parsed timestamp. Only its total order matters to the script. */
  type Time = int

  /** A cell as pandas holds it: text, or a number once parsed or coerced. */
  datatype Value = Text(text: string) | Number(x: real)

  /** `None` is a missing cell (pandas' NaN). */
  type Cell = Option<Value>

  /** One table row after `set_index('timestamp')`: the row key and the
      remaining cells, in column order. */
  datatype Record = Record(time: Time, cells: seq<Cell>)

  /** A time-indexed table: column names (the index column excluded) and rows. */
  datatype Frame = Frame(columns: seq<string>, rows: seq<Record>)

  /** Every row has one cell per column. */
  predicate WellFormed(f: Frame) {
    forall i :: 0 <= i < |f.rows| ==> |f.rows[i].cells| == |f.columns|
  }

  /** The row keys are non-decreasing (duplicates allowed). */
  predicate SortedByTime(rs: seq<Record>) {
    forall i, j :: 0 <= i < j < |rs| ==> rs[i].time <= rs[j].time
  }

  // ---------------------------------------------------------------- sequences

  /** `a` is `b` with some elements left out, order kept. */
  predicate IsSubsequence<T(==)>(a: seq<T>, b: seq<T>)
    decreases |b|
  {
    if a == [] then true
    else if b == [] then false
    else if a[0] == b[0] then IsSubsequence(a[1..], b[1..])
    else IsSubsequence(a, b[1..])
  }

  /** The elements of `s` that satisfy `p`, in their order in `s`. */
  function Filter<T>(s: seq<T>, p: T -> bool): (r: seq<T>)
    ensures |r| <= |s|
    ensures forall i :: 0 <= i < |r| ==> p(r[i]) && r[i] in s
  {
    if s == [] then []
    else if p(s[0]) then [s[0]] + Filter(s[1..], p)
    else Filter(s[1..], p)
  }

  /** Filter keeps exactly the elements satisfying `p`, every copy of them,
      as a subsequence. */
  lemma {:induction false} FilterSpec<T>(s: seq<T>, p: T -> bool)
    ensures IsSubsequence(Filter(s, p), s)
    ensures forall x :: x in Filter(s, p) <==> x in s && p(x)
    ensures forall x :: multiset(Filter(s, p))[x] == if p(x) then multiset(s)[x] else 0
    ensures multiset(Filter(s, p)) <= multiset(s)
  {
    if s != [] {
      FilterSpec(s[1..], p);
      assert s == [s[0]] + s[1..];
      if p(s[0]) {
        var f := Filter(s, p);
        assert f[0] == s[0] && f[1..] == Filter(s[1..], p);
      } else {
        SubsequenceSkip(Filter(s, p), s);
      }
    }
  }

  /** Skipping the first element of `b` keeps `a` a subsequence. */
  lemma {:induction false} SubsequenceSkip<T>(a: seq<T>, b: seq<T>)
    requires b != [] && IsSubsequence(a, b[1..])
    ensures IsSubsequence(a, b)
    decreases |b|, 0
  {
    if a != [] && a[0] == b[0] {
      SubsequenceDropFront(a, b[1..]);
    }
  }

  lemma {:induction false} SubsequenceDropFront<T>(a: seq<T>, b: seq<T>)
    requires a != [] && IsSubsequence(a, b)
    ensures IsSubsequence(a[1..], b)
    decreases |b|, 1
  {
    if a[0] == b[0] {
      SubsequenceSkip(a[1..], b);
    } else {
      SubsequenceDropFront(a, b[1..]);
      SubsequenceSkip(a[1..], b);
    }
  }

  /** Appending to `b` keeps `a` a subsequence, and appending the same
      element to both keeps the relation. */
  lemma {:induction false} SubsequenceExtend<T>(a: seq<T>, b: seq<T>, x: T)
    requires IsSubsequence(a, b)
    ensures IsSubsequence(a, b + [x])
    ensures IsSubsequence(a + [x], b + [x])
    decreases |b|
  {
    if b == [] {
      assert a == [];
      assert a + [x] == [x];
    } else if a == [] {
      if x != b[0] {
        SubsequenceExtend(a, b[1..], x);
        assert (b + [x])[1..] == b[1..] + [x];
      }
      assert a + [x] == [x];
    } else {
      assert (b + [x])[0] == b[0] && (b + [x])[1..] == b[1..] + [x];
      assert (a + [x])[0] == a[0] && (a + [x])[1..] == a[1..] + [x];
      if a[0] == b[0] {
        SubsequenceExtend(a[1..], b[1..], x);
      } else {
        SubsequenceExtend(a, b[1..], x);
      }
    }
  }

  /** Filtering twice keeps the rows that pass both tests. */
  lemma {:induction false} FilterFilter<T>(s: seq<T>, p: T -> bool, q: T -> bool, pq: T -> bool)
    requires forall x :: pq(x) == (p(x) && q(x))
    ensures Filter(Filter(s, p), q) == Filter(s, pq)
  {
    if s != [] {
      FilterFilter(s[1..], p, q, pq);
    }
  }

  /** Number of positions of `s` holding `x`. */
  function Count<T(==)>(s: seq<T>, x: T): (n: nat)
    ensures n <= |s|
    ensures n == 0 <==> x !in s
  {
    if s == [] then 0 else (if s[0] == x then 1 else 0) + Count(s[1..], x)
  }

  /** A value at two distinct positions is counted more than once. */
  lemma {:induction false} CountTwice<T>(s: seq<T>, i: int, j: int)
    requires 0 <= i < |s| && 0 <= j < |s| && i != j && s[i] == s[j]
    ensures Count(s, s[i]) > 1
  {
    if i != 0 && j != 0 {
      CountTwice(s[1..], i - 1, j - 1);
    } else {
      var k := if i == 0 then j else i;
      assert s[1..][k - 1] == s[i];
    }
  }

  /** A value counted more than once sits at two distinct positions. */
  lemma {:induction false} CountAboveOne<T>(s: seq<T>, x: T)
    requires Count(s, x) > 1
    ensures exists i, j :: 0 <= i < j < |s| && s[i] == x && s[j] == x
  {
    if s[0] == x {
      var j := IndexOf(s[1..], x);
      assert s[j + 1] == x;
    } else {
      CountAboveOne(s[1..], x);
      var i, j :| 0 <= i < j < |s| - 1 && s[1..][i] == x && s[1..][j] == x;
      assert s[i + 1] == x && s[j + 1] == x;
    }
  }

  lemma {:induction false} CountOnce<T>(s: seq<T>, i: int)
    requires 0 <= i < |s| && Count(s, s[i]) <= 1
    ensures forall j :: 0 <= j < |s| && j != i ==> s[j] != s[i]
  {
    forall j | 0 <= j < |s| && j != i && s[j] == s[i]
      ensures false
    {
      CountTwice(s, i, j);
    }
  }

  /** The first position of `x` in `s` (Python's `list.index`). */
  function IndexOf<T(==)>(s: seq<T>, x: T): (k: nat)
    requires x in s
    ensures k < |s| && s[k] == x
    ensures forall j :: 0 <= j < k ==> s[j] != x
  {
    if s[0] == x then 0 else 1 + IndexOf(s[1..], x)
  }

  /** `s` with position `k` taken out. */
  function RemoveAt<T>(s: seq<T>, k: nat): (r: seq<T>)
    requires k < |s|
    ensures |r| == |s| - 1
    ensures forall i :: 0 <= i < k ==> r[i] == s[i]
    ensures forall i :: k <= i < |r| ==> r[i] == s[i + 1]
  {
    s[..k] + s[k + 1..]
  }

  // --------------------------------------------------------------- sort_index

  /** Puts `r` into the sorted `rs` after every row with a smaller or equal key. */
  function Insert(r: Record, rs: seq<Record>): (out: seq<Record>)
    requires SortedByTime(rs)
    ensures SortedByTime(out)
    ensures |out| == |rs| + 1
    ensures out[0] == r || (rs != [] && out[0] == rs[0])
  {
    if rs == [] then [r]
    else if r.time <= rs[0].time then
      SortedCons(r, rs);
      [r] + rs
    else
      var tail := Insert(r, rs[1..]);
      SortedCons(rs[0], tail);
      [rs[0]] + tail
  }

  /** Inserting adds exactly the one row. */
  lemma {:induction false} InsertPermutes(r: Record, rs: seq<Record>)
    requires SortedByTime(rs)
    ensures multiset(Insert(r, rs)) == multiset(rs) + multiset{r}
  {
    if rs != [] && r.time > rs[0].time {
      InsertPermutes(r, rs[1..]);
      assert rs == [rs[0]] + rs[1..];
    }
  }

  /** A row no later than the first of sorted rows can go in front of them. */
  lemma SortedCons(x: Record, rs: seq<Record>)
    requires SortedByTime(rs) && (rs != [] ==> x.time <= rs[0].time)
    ensures SortedByTime([x] + rs)
  {
    var s := [x] + rs;
    forall i, j | 0 <= i < j < |s|
      ensures s[i].time <= s[j].time
    {
      if i > 0 {
        assert s[i] == rs[i - 1] && s[j] == rs[j - 1];
      } else {
        assert s[j] == rs[j - 1];
      }
    }
  }

  /** `sort_index()`: the rows ordered by non-decreasing key. pandas does not
      promise a stable order among equal keys, so only sortedness and
      permutation are stated. */
  function SortByTime(rs: seq<Record>): (sorted: seq<Record>)
    ensures SortedByTime(sorted)
    ensures multiset(sorted) == multiset(rs)
    ensures |sorted| == |rs|
  {
    if rs == [] then []
    else
      var rest := SortByTime(rs[1..]);
      InsertPermutes(rs[0], rest);
      assert rs == [rs[0]] + rs[1..];
      Insert(rs[0], rest)
  }

  /** Sorting moves rows but does not change any of them. */
  lemma SortKeepsWidth(rs: seq<Record>, width: nat)
    requires forall i :: 0 <= i < |rs| ==> |rs[i].cells| == width
    ensures forall i :: 0 <= i < |rs| ==> |SortByTime(rs)[i].cells| == width
  {
    var sorted := SortByTime(rs);
    forall i | 0 <= i < |rs|
      ensures |sorted[i].cells| == width
    {
      assert sorted[i] in multiset(rs);
    }
  }

  /** `index.min()`: the smallest key of a non-empty table. */
  function MinTime(rs: seq<Record>): (t: Time)
    requires rs != []
    ensures forall i :: 0 <= i < |rs| ==> t <= rs[i].time
    ensures exists i :: 0 <= i < |rs| && rs[i].time == t
  {
    if |rs| == 1 then rs[0].time
    else
      var m := MinTime(rs[1..]);
      assert forall i :: 1 <= i < |rs| ==> rs[i] == rs[1..][i - 1];
      if rs[0].time <= m then rs[0].time else m
  }

  /** `index.max()`: the largest key of a non-empty table. */
  function MaxTime(rs: seq<Record>): (t: Time)
    requires rs != []
    ensures forall i :: 0 <= i < |rs| ==> rs[i].time <= t
    ensures exists i :: 0 <= i < |rs| && rs[i].time == t
  {
    if |rs| == 1 then rs[0].time
    else
      var m := MaxTime(rs[1..]);
      assert forall i :: 1 <= i < |rs| ==> rs[i] == rs[1..][i - 1];
      if m <= rs[0].time then rs[0].time else m
  }

  /** On sorted rows the minimum and maximum keys are the first and last. */
  lemma SortedRange(rs: seq<Record>)
    requires rs != [] && SortedByTime(rs)
    ensures MinTime(rs) == rs[0].time
    ensures MaxTime(rs) == rs[|rs| - 1].time
  {
    var last := |rs| - 1;
    assert MinTime(rs) == rs[0].time by {
      var i :| 0 <= i < |rs| && rs[i].time == MinTime(rs);
      if i > 0 {
        assert rs[0].time <= rs[i].time;
      }
    }
    assert MaxTime(rs) == rs[last].time by {
      var j :| 0 <= j < |rs| && rs[j].time == MaxTime(rs);
      if j < last {
        assert rs[j].time <= rs[last].time;
      }
    }
  }
}
