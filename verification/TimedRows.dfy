/**
  Timestamped rows, the queries the program runs over them (filter by time, order by time, slice), and
  the bisection that replaces those queries on a preloaded, sorted list.
 */
module TimedRows {
  import Permutations

  datatype Timed<T> = Timed(time: real, data: T)

  datatype Lower = Unbounded | AtLeast(bound: real) | After(bound: real) {
    predicate Admits(t: real) {
      match this
      case Unbounded => true
      case AtLeast(b) => b <= t
      case After(b) => b < t
    }
  }

  predicate InWindow(t: real, lower: Lower, upper: real) {
    lower.Admits(t) && t <= upper
  }

  /** `WHERE lower AND time <= upper`, in table order. */
  function Select<T>(rows: seq<Timed<T>>, lower: Lower, upper: real): seq<Timed<T>> {
    if rows == [] then []
    else if InWindow(rows[0].time, lower, upper) then [rows[0]] + Select(rows[1..], lower, upper)
    else Select(rows[1..], lower, upper)
  }

  function Insert<T>(row: Timed<T>, rows: seq<Timed<T>>): seq<Timed<T>> {
    if rows == [] || row.time <= rows[0].time then [row] + rows else [rows[0]] + Insert(row, rows[1..])
  }

  /** `ORDER BY time`. */
  function SortByTime<T>(rows: seq<Timed<T>>): seq<Timed<T>> {
    if rows == [] then [] else Insert(rows[0], SortByTime(rows[1..]))
  }

  function Reverse<T>(s: seq<T>): (r: seq<T>)
    ensures |r| == |s| && forall i :: 0 <= i < |s| ==> r[i] == s[|s| - 1 - i]
  {
    if s == [] then [] else Reverse(s[1..]) + [s[0]]
  }

  /** `ORDER BY time DESC`. */
  function NewestFirst<T>(rows: seq<Timed<T>>): seq<Timed<T>> {
    Reverse(SortByTime(rows))
  }

  function First<T>(s: seq<T>, n: nat): seq<T> {
    if |s| <= n then s else s[..n]
  }

  function Last<T>(s: seq<T>, n: nat): seq<T> {
    if |s| <= n then s else s[|s| - n..]
  }

  function Times<T>(rows: seq<Timed<T>>): (r: seq<real>)
    ensures |r| == |rows| && forall i :: 0 <= i < |rows| ==> r[i] == rows[i].time
  {
    seq(|rows|, i requires 0 <= i < |rows| => rows[i].time)
  }

  ghost predicate Ascending(times: seq<real>) {
    forall i, j :: 0 <= i < j < |times| ==> times[i] <= times[j]
  }

  ghost predicate Sorted<T>(rows: seq<Timed<T>>) {
    forall i, j :: 0 <= i < j < |rows| ==> rows[i].time <= rows[j].time
  }

  ghost predicate DistinctTimes<T>(rows: seq<Timed<T>>) {
    forall i, j :: 0 <= i < j < |rows| ==> rows[i].time != rows[j].time
  }

  // ----- Bisection -----

  /** Python's `bisect_right`: the number of entries that are at most `x`. */
  function BisectRight(times: seq<real>, x: real, lo: nat, hi: nat): (r: nat)
    requires lo <= hi <= |times| && Ascending(times)
    requires forall i :: 0 <= i < lo ==> times[i] <= x
    requires forall i :: hi <= i < |times| ==> x < times[i]
    ensures r <= |times|
    ensures forall i :: 0 <= i < r ==> times[i] <= x
    ensures forall i :: r <= i < |times| ==> x < times[i]
    decreases hi - lo
  {
    if lo == hi then lo
    else
      var mid := (lo + hi) / 2;
      if x < times[mid] then BisectRight(times, x, lo, mid) else BisectRight(times, x, mid + 1, hi)
  }

  // ----- Sorting and selecting -----

  lemma {:induction false} InsertHas<T>(row: Timed<T>, rows: seq<Timed<T>>)
    ensures forall x :: x in Insert(row, rows) ==> x == row || x in rows
  {
    if rows == [] || row.time <= rows[0].time {
    } else {
      InsertHas(row, rows[1..]);
    }
  }

  lemma {:induction false} InsertSorts<T>(row: Timed<T>, rows: seq<Timed<T>>)
    requires Sorted(rows)
    ensures Sorted(Insert(row, rows))
  {
    if rows == [] || row.time <= rows[0].time {
    } else {
      InsertSorts(row, rows[1..]);
      InsertHas(row, rows[1..]);
      var r := Insert(row, rows[1..]);
      forall j | 0 <= j < |r| ensures rows[0].time <= r[j].time {
        assert r[j] == row || r[j] in rows[1..];
      }
    }
  }

  lemma {:induction false} InsertAddsOne<T>(row: Timed<T>, rows: seq<Timed<T>>)
    ensures multiset(Insert(row, rows)) == multiset{row} + multiset(rows)
  {
    if rows == [] || row.time <= rows[0].time {
    } else {
      assert rows == [rows[0]] + rows[1..];
      InsertAddsOne(row, rows[1..]);
    }
  }

  lemma {:induction false} SortSorts<T>(rows: seq<Timed<T>>)
    ensures Sorted(SortByTime(rows)) && multiset(SortByTime(rows)) == multiset(rows)
  {
    if rows != [] {
      SortSorts(rows[1..]);
      InsertSorts(rows[0], SortByTime(rows[1..]));
      InsertAddsOne(rows[0], SortByTime(rows[1..]));
      assert rows == [rows[0]] + rows[1..];
    }
  }

  lemma {:induction false} SortKeepsDistinct<T>(rows: seq<Timed<T>>)
    requires DistinctTimes(rows)
    ensures DistinctTimes(SortByTime(rows))
  {
    if rows != [] {
      SortKeepsDistinct(rows[1..]);
      SortSorts(rows[1..]);
      var s := SortByTime(rows[1..]);
      forall k | 0 <= k < |s| ensures s[k].time != rows[0].time {
        assert s[k] in multiset(s) && s[k] in rows[1..];
        var i :| 0 <= i < |rows[1..]| && rows[1..][i] == s[k];
        assert rows[i + 1] == s[k];
      }
      InsertKeepsDistinct(rows[0], s);
    }
  }

  lemma {:induction false} InsertKeepsDistinct<T>(row: Timed<T>, rows: seq<Timed<T>>)
    requires DistinctTimes(rows) && forall k :: 0 <= k < |rows| ==> rows[k].time != row.time
    ensures DistinctTimes(Insert(row, rows))
  {
    if rows == [] || row.time <= rows[0].time {
    } else {
      var rest := rows[1..];
      InsertKeepsDistinct(row, rest);
      InsertHas(row, rest);
      var r := Insert(row, rest);
      forall k | 0 <= k < |r| ensures r[k].time != rows[0].time {
        assert r[k] == row || r[k] in rest;
      }
    }
  }

  /** With distinct times there is only one way to order the rows, so the database has no choice. */
  lemma {:induction false} OrderIsForced<T>(a: seq<Timed<T>>, b: seq<Timed<T>>)
    requires Sorted(a) && Sorted(b) && multiset(a) == multiset(b) && DistinctTimes(a)
    ensures a == b
  {
    Permutations.SameSize(a, b);
    if a != [] {
      SameFirst(a, b);
      SameRest(a, b);
      OrderIsForced(a[1..], b[1..]);
    }
  }

  lemma SameRest<T>(a: seq<T>, b: seq<T>)
    requires multiset(a) == multiset(b) && a != [] && b != [] && a[0] == b[0]
    ensures multiset(a[1..]) == multiset(b[1..])
  {
    assert a == [a[0]] + a[1..] && b == [b[0]] + b[1..];
    assert multiset(a[1..]) == multiset(a) - multiset{a[0]};
    assert multiset(b[1..]) == multiset(b) - multiset{b[0]};
  }

  lemma SameFirst<T>(a: seq<Timed<T>>, b: seq<Timed<T>>)
    requires Sorted(a) && Sorted(b) && multiset(a) == multiset(b) && DistinctTimes(a) && a != [] && b != []
    ensures a[0] == b[0]
  {
    assert a[0] in multiset(b) && b[0] in multiset(a);
    var i :| 0 <= i < |a| && a[i] == b[0];
    var j :| 0 <= j < |b| && b[j] == a[0];
    assert a[0].time <= a[i].time && b[0].time <= b[j].time;
  }

  lemma {:induction false} SelectInsert<T>(row: Timed<T>, rows: seq<Timed<T>>, lower: Lower, upper: real)
    requires Sorted(rows)
    ensures Select(Insert(row, rows), lower, upper) ==
            if InWindow(row.time, lower, upper) then Insert(row, Select(rows, lower, upper))
            else Select(rows, lower, upper)
  {
    if rows == [] || row.time <= rows[0].time {
      assert ([row] + rows)[1..] == rows;
      if InWindow(row.time, lower, upper) { SelectBounded(row.time, rows, lower, upper); }
    } else {
      SelectInsert(row, rows[1..], lower, upper);
      assert ([rows[0]] + Insert(row, rows[1..]))[1..] == Insert(row, rows[1..]);
      if InWindow(row.time, lower, upper) && InWindow(rows[0].time, lower, upper) {
        var rest := Select(rows[1..], lower, upper);
        assert ([rows[0]] + rest)[1..] == rest;
      }
    }
  }

  /** Rows all dated from `t` on keep that under selection, so inserting a row dated `t` puts it first. */
  lemma {:induction false} SelectBounded<T>(t: real, rows: seq<Timed<T>>, lower: Lower, upper: real)
    requires forall i :: 0 <= i < |rows| ==> t <= rows[i].time
    ensures forall i :: 0 <= i < |Select(rows, lower, upper)| ==> t <= Select(rows, lower, upper)[i].time
  {
    if rows != [] {
      SelectBounded(t, rows[1..], lower, upper);
    }
  }

  /** Filtering before ordering and ordering before filtering give the same list. */
  lemma {:induction false} SelectCommutesWithSort<T>(rows: seq<Timed<T>>, lower: Lower, upper: real)
    ensures SortByTime(Select(rows, lower, upper)) == Select(SortByTime(rows), lower, upper)
  {
    if rows != [] {
      SelectCommutesWithSort(rows[1..], lower, upper);
      SortSorts(rows[1..]);
      SelectInsert(rows[0], SortByTime(rows[1..]), lower, upper);
      var rest := Select(rows[1..], lower, upper);
      if InWindow(rows[0].time, lower, upper) {
        assert ([rows[0]] + rest)[1..] == rest;
      }
    }
  }

  /** Selecting from a wider selection is selecting from the table. */
  lemma {:induction false} SelectNarrows<T>(rows: seq<Timed<T>>, outerLow: Lower, outerHigh: real, lower: Lower,
                                            upper: real)
    requires forall i :: 0 <= i < |rows| && InWindow(rows[i].time, lower, upper) ==>
               InWindow(rows[i].time, outerLow, outerHigh)
    ensures Select(Select(rows, outerLow, outerHigh), lower, upper) == Select(rows, lower, upper)
  {
    if rows != [] {
      SelectNarrows(rows[1..], outerLow, outerHigh, lower, upper);
      var rest := Select(rows[1..], outerLow, outerHigh);
      if InWindow(rows[0].time, outerLow, outerHigh) {
        assert ([rows[0]] + rest)[1..] == rest;
      }
    }
  }

  lemma {:induction false} SelectNone<T>(rows: seq<Timed<T>>, lower: Lower, upper: real)
    requires forall k :: 0 <= k < |rows| ==> !InWindow(rows[k].time, lower, upper)
    ensures Select(rows, lower, upper) == []
  {
    if rows != [] { SelectNone(rows[1..], lower, upper); }
  }

  lemma {:induction false} SelectAll<T>(rows: seq<Timed<T>>, lower: Lower, upper: real)
    requires forall k :: 0 <= k < |rows| ==> InWindow(rows[k].time, lower, upper)
    ensures Select(rows, lower, upper) == rows
  {
    if rows != [] { SelectAll(rows[1..], lower, upper); }
  }

  lemma {:induction false} SelectSplits<T>(a: seq<Timed<T>>, b: seq<Timed<T>>, lower: Lower, upper: real)
    ensures Select(a + b, lower, upper) == Select(a, lower, upper) + Select(b, lower, upper)
  {
    if a == [] {
      assert a + b == b;
    } else {
      assert (a + b)[1..] == a[1..] + b;
      SelectSplits(a[1..], b, lower, upper);
    }
  }

  /** When the rows in the window are contiguous, the selection is that slice. */
  lemma {:induction false} SelectIsSlice<T>(rows: seq<Timed<T>>, lower: Lower, upper: real, i: nat, j: nat)
    requires i <= j <= |rows|
    requires forall k :: 0 <= k < i ==> !InWindow(rows[k].time, lower, upper)
    requires forall k :: i <= k < j ==> InWindow(rows[k].time, lower, upper)
    requires forall k :: j <= k < |rows| ==> !InWindow(rows[k].time, lower, upper)
    ensures Select(rows, lower, upper) == rows[i..j]
  {
    var left, middle, right := rows[..i], rows[i..j], rows[j..];
    assert rows == left + (middle + right);
    SelectSplits(left, middle + right, lower, upper);
    SelectSplits(middle, right, lower, upper);
    SelectNone(left, lower, upper);
    SelectAll(middle, lower, upper);
    SelectNone(right, lower, upper);
  }

  /** Two bisections cut out exactly the rows after `lo` and up to `hi`. */
  lemma {:induction false} BisectionSelects<T>(rows: seq<Timed<T>>, lo: real, hi: real)
    requires Sorted(rows) && lo <= hi
    ensures var i := BisectRight(Times(rows), lo, 0, |rows|);
            var j := BisectRight(Times(rows), hi, 0, |rows|);
            i <= j && rows[i..j] == Select(rows, After(lo), hi) && rows[..j] == Select(rows, Unbounded, hi)
  {
    var times := Times(rows);
    var i, j := BisectRight(times, lo, 0, |rows|), BisectRight(times, hi, 0, |rows|);
    if j < |rows| { assert hi < times[j]; }
    SelectIsSlice(rows, After(lo), hi, i, j);
    SelectIsSlice(rows, Unbounded, hi, 0, j);
  }

  /**
    What a preload followed by bisection yields is the selection from the table itself: any preload that
    contains the window gives the same rows.
   */
  lemma {:induction false} PreloadIsTransparent<T>(table: seq<Timed<T>>, preloadFrom: Lower, preloadTo: real,
                                                       lower: Lower, upper: real)
    requires forall t: real :: InWindow(t, lower, upper) ==> InWindow(t, preloadFrom, preloadTo)
    ensures Select(SortByTime(Select(table, preloadFrom, preloadTo)), lower, upper)
            == SortByTime(Select(table, lower, upper))
  {
    SelectCommutesWithSort(table, preloadFrom, preloadTo);
    SelectCommutesWithSort(table, lower, upper);
    SelectNarrows(SortByTime(table), preloadFrom, preloadTo, lower, upper);
  }

  lemma {:induction false} FirstOfReverse<T>(s: seq<T>, n: nat)
    ensures First(Reverse(s), n) == Reverse(Last(s, n))
  {
    var a, b := First(Reverse(s), n), Reverse(Last(s, n));
    assert |a| == |b|;
    forall i | 0 <= i < |a| ensures a[i] == b[i] {
    }
  }

  /** The newest `n` rows, newest first, are the last `n` rows in order, reversed. */
  lemma {:induction false} NewestAreLast<T>(rows: seq<Timed<T>>, n: nat)
    ensures First(NewestFirst(rows), n) == Reverse(Last(SortByTime(rows), n))
  {
    FirstOfReverse(SortByTime(rows), n);
  }
}
