/**
  What the external features say about the observations in the table: which rows they read, and how the numbers come
  out of those rows.
 */
module AsOfFeatures {
  import opened TimedRows
  import opened ExternalSignals

  // ----- Which rows are read -----

  /** How often a row with a time in the window occurs in the table. */
  function Occurs<T(==)>(table: seq<Timed<T>>, lower: Lower, upper: real, row: Timed<T>): nat {
    if InWindow(row.time, lower, upper) then multiset(table)[row] else 0
  }

  /**
    `top` holds the newest rows of the window, newest first and at most `limit` of them: a row is left out only when
    `limit` others are at least as new.
   */
  ghost predicate IsNewest<T(!new)>(top: seq<Timed<T>>, table: seq<Timed<T>>, lower: Lower, upper: real, limit: nat) {
    && |top| <= limit
    && (forall i, j :: 0 <= i < j < |top| ==> top[j].time <= top[i].time)
    && (forall row :: multiset(top)[row] <= Occurs(table, lower, upper, row))
    && (forall row :: multiset(top)[row] < Occurs(table, lower, upper, row) ==>
          |top| == limit && forall i :: 0 <= i < |top| ==> row.time <= top[i].time)
  }

  lemma {:induction false} SelectOccurs<T>(table: seq<Timed<T>>, lower: Lower, upper: real, row: Timed<T>)
    ensures multiset(Select(table, lower, upper))[row] == Occurs(table, lower, upper, row)
  {
    if table != [] {
      SelectOccurs(table[1..], lower, upper, row);
      assert table == [table[0]] + table[1..];
    }
  }

  lemma {:induction false} ReverseKeepsRows<T>(s: seq<T>)
    ensures multiset(Reverse(s)) == multiset(s)
  {
    if s != [] {
      ReverseKeepsRows(s[1..]);
      assert s == [s[0]] + s[1..];
    }
  }

  ghost predicate Descending<T>(rows: seq<Timed<T>>) {
    forall i, j :: 0 <= i < j < |rows| ==> rows[j].time <= rows[i].time
  }

  /** Cut off a descending list, and what is left out is no newer than what is left. */
  lemma CutLeavesNewest<T(!new)>(all: seq<Timed<T>>, limit: nat, row: Timed<T>)
    requires Descending(all)
    ensures multiset(First(all, limit))[row] <= multiset(all)[row]
    ensures multiset(First(all, limit))[row] < multiset(all)[row] ==>
              |First(all, limit)| == limit && forall i :: 0 <= i < limit ==> row.time <= all[i].time
  {
    if |all| > limit {
      var rest := all[limit..];
      assert all == all[..limit] + rest;
      if row in multiset(rest) {
        var k :| 0 <= k < |rest| && rest[k] == row;
        assert all[limit + k] == row;
      }
    }
  }

  lemma {:induction false} NewestFirstIs<T(!new)>(rows: seq<Timed<T>>)
    ensures Descending(NewestFirst(rows)) && multiset(NewestFirst(rows)) == multiset(rows)
  {
    SortSorts(rows);
    ReverseKeepsRows(SortByTime(rows));
  }

  lemma {:induction false} CutOfWindow<T(!new)>(all: seq<Timed<T>>, table: seq<Timed<T>>, lower: Lower, upper: real,
                                               limit: nat)
    requires Descending(all) && forall row :: multiset(all)[row] == Occurs(table, lower, upper, row)
    ensures IsNewest(First(all, limit), table, lower, upper, limit)
  {
    forall row
      ensures multiset(First(all, limit))[row] <= Occurs(table, lower, upper, row)
      ensures multiset(First(all, limit))[row] < Occurs(table, lower, upper, row) ==>
                |First(all, limit)| == limit && forall i :: 0 <= i < limit ==> row.time <= all[i].time
    {
      CutLeavesNewest(all, limit, row);
    }
  }

  lemma {:induction false} NewestOfWindow<T(!new)>(table: seq<Timed<T>>, lower: Lower, upper: real, limit: nat)
    ensures IsNewest(First(NewestFirst(Select(table, lower, upper)), limit), table, lower, upper, limit)
  {
    var rows := Select(table, lower, upper);
    NewestFirstIs(rows);
    forall row ensures multiset(NewestFirst(rows))[row] == Occurs(table, lower, upper, row) {
      SelectOccurs(table, lower, upper, row);
    }
    CutOfWindow(NewestFirst(rows), table, lower, upper, limit);
  }

  // ----- Sentiment -----

  function SumOf<T>(rows: seq<Timed<T>>, f: T -> real): real {
    if rows == [] then 0.0 else f(rows[0].data) + SumOf(rows[1..], f)
  }

  /** The features of these rows: their averages, the age of the newest in minutes, and a one; or the defaults. */
  ghost predicate Averages(f: SentimentFeatures, top: seq<Timed<Scores>>, epoch: int) {
    if top == [] then f == SentimentFeatures(Scores(0.0, 0.0, 0.0), 1440.0, 0.0)
    else
      var n := |top| as real;
      && f.scores.compound * n == SumOf(top, (s: Scores) => s.compound)
      && f.scores.positive * n == SumOf(top, (s: Scores) => s.positive)
      && f.scores.negative * n == SumOf(top, (s: Scores) => s.negative)
      && f.ageMinutes * 60.0 == epoch as real - top[0].time && f.ageMinutes >= 0.0 && f.available == 1.0
  }

  /** The features are those of the newest 100 rows of the window. */
  ghost predicate SaysSentiment(f: SentimentFeatures, table: seq<Timed<Scores>>, lower: Lower, epoch: int) {
    exists top :: IsNewest(top, table, lower, epoch as real, 100) && Averages(f, top, epoch)
  }

  lemma {:induction false} TotalIsSum(rows: seq<Timed<Scores>>)
    ensures Total(rows).compound == SumOf(rows, (s: Scores) => s.compound)
    ensures Total(rows).positive == SumOf(rows, (s: Scores) => s.positive)
    ensures Total(rows).negative == SumOf(rows, (s: Scores) => s.negative)
  {
    if rows != [] { TotalIsSum(rows[1..]); }
  }

  lemma QuotientTimes(a: real, n: real)
    requires n > 0.0
    ensures a / n * n == a
  {
  }

  lemma AveragesOfTop(top: seq<Timed<Scores>>, epoch: int)
    requires top != [] ==> top[0].time <= epoch as real
    ensures Averages(if top == [] then NO_SENTIMENT
                     else SentimentFeatures(Average(top), AgeMinutes(epoch as real, top[0].time), 1.0), top, epoch)
  {
    if top != [] {
      var t, n := Total(top), |top| as real;
      TotalIsSum(top);
      QuotientTimes(t.compound, n);
      QuotientTimes(t.positive, n);
      QuotientTimes(t.negative, n);
    }
  }

  lemma NewestIsInWindow<T(!new)>(top: seq<Timed<T>>, table: seq<Timed<T>>, lower: Lower, upper: real, limit: nat)
    requires IsNewest(top, table, lower, upper, limit) && top != []
    ensures InWindow(top[0].time, lower, upper)
  {
    assert top[0] in multiset(top);
    assert multiset(top)[top[0]] <= Occurs(table, lower, upper, top[0]);
  }

  /** The query reads the newest 100 observations of the last 24 hours, the one exactly 24 hours old included. */
  lemma {:induction false} SentimentQueryMeans(table: seq<Timed<Scores>>, epoch: int)
    ensures SaysSentiment(SentimentAsOf(table, epoch), table, AtLeast(epoch as real - 86400.0), epoch)
  {
    var lower, upper := AtLeast(epoch as real - 86400.0), epoch as real;
    var top := First(NewestFirst(Select(table, lower, upper)), 100);
    NewestOfWindow(table, lower, upper, 100);
    if top != [] { NewestIsInWindow(top, table, lower, upper, 100); }
    AveragesOfTop(top, epoch);
  }

  /** The index reads the newest 100 observations of less than 24 hours, whatever its preload. */
  lemma {:induction false} SentimentIndexMeans(table: seq<Timed<Scores>>, first: int, last: int, epoch: int)
    requires first <= epoch <= last
    ensures SaysSentiment(SentimentLookup(SentimentPreload(table, first, last), epoch), table,
                          After(epoch as real - 86400.0), epoch)
  {
    var lower, upper := After(epoch as real - 86400.0), epoch as real;
    var top, recent := First(NewestFirst(Select(table, lower, upper)), 100), Last(RecentRows(table, epoch), 100);
    LookupReadsTable(table, first, last, epoch);
    NewestAreLast(Select(table, lower, upper), 100);
    assert top == Reverse(recent);
    TotalReversed(recent);
    NewestOfWindow(table, lower, upper, 100);
    if top != [] { NewestIsInWindow(top, table, lower, upper, 100); }
    AveragesOfTop(top, epoch);
  }

  // ----- Order book -----

  /** The row is a newest one of those no later than the epoch. */
  ghost predicate IsLatest(row: Timed<Depth>, table: seq<Timed<Depth>>, epoch: int) {
    && row in table && row.time <= epoch as real
    && forall x :: x in table && x.time <= epoch as real ==> x.time <= row.time
  }

  /** The features of a newest snapshot if one is at most 300 seconds old; otherwise zeros. */
  ghost predicate SaysBook(f: BookFeatures, table: seq<Timed<Depth>>, epoch: int) {
    if forall x :: x in table ==> !(epoch as real - 300.0 <= x.time <= epoch as real)
    then f == BookFeatures(0.0, 0.0, 0.0, 0.0)
    else
      exists row ::
        && IsLatest(row, table, epoch)
        && f == BookFeatures(row.data.imbalance, row.data.bid + row.data.ask, row.data.spread, 1.0)
  }

  lemma {:induction false} SortedHas<T>(table: seq<Timed<T>>, lower: Lower, upper: real, x: Timed<T>)
    ensures x in SortByTime(Select(table, lower, upper)) <==> x in table && InWindow(x.time, lower, upper)
  {
    var picked := Select(table, lower, upper);
    SortSorts(picked);
    SelectHas(table, lower, upper, x);
    assert x in SortByTime(picked) <==> x in multiset(SortByTime(picked));
    assert x in picked <==> x in multiset(picked);
  }

  lemma LastIsNewest<T>(rows: seq<Timed<T>>, x: Timed<T>)
    requires Sorted(rows) && x in rows
    ensures x.time <= rows[|rows| - 1].time
  {
    var k :| 0 <= k < |rows| && rows[k] == x;
  }

  /**
    Reading the last of the ordered rows of a window that reaches back at least 300 seconds says what a newest
    snapshot of the table says.
   */
  lemma {:induction false} LatestSays(table: seq<Timed<Depth>>, lower: Lower, epoch: int, rows: seq<Timed<Depth>>)
    requires rows == SortByTime(Select(table, lower, epoch as real))
    requires lower == Unbounded || (lower.AtLeast? && lower.bound <= epoch as real - 300.0)
    ensures SaysBook(ReadLatest(rows, epoch as real), table, epoch)
  {
    var upper := epoch as real;
    forall x ensures x in rows <==> x in table && InWindow(x.time, lower, upper) { SortedHas(table, lower, upper, x); }
    SortSorts(Select(table, lower, upper));
    forall x | x in rows ensures x.time <= rows[|rows| - 1].time { LastIsNewest(rows, x); }
    LastSays(table, lower, epoch, rows);
  }

  lemma LastSays(table: seq<Timed<Depth>>, lower: Lower, epoch: int, rows: seq<Timed<Depth>>)
    requires forall x :: x in rows <==> x in table && InWindow(x.time, lower, epoch as real)
    requires forall x :: x in rows ==> x.time <= rows[|rows| - 1].time
    requires lower == Unbounded || (lower.AtLeast? && lower.bound <= epoch as real - 300.0)
    ensures SaysBook(ReadLatest(rows, epoch as real), table, epoch)
  {
    if rows != [] {
      var row := rows[|rows| - 1];
      assert row in rows;
      if epoch as real - row.time <= 300.0 { assert IsLatest(row, table, epoch); }
    }
  }

  /** The query says what a newest snapshot says. */
  lemma {:induction false} BookQueryMeans(table: seq<Timed<Depth>>, epoch: int)
    ensures SaysBook(BookAsOf(table, epoch), table, epoch)
  {
    LatestSays(table, Unbounded, epoch, SortByTime(Select(table, Unbounded, epoch as real)));
  }

  /** The index says the same inside the preload. */
  lemma {:induction false} BookIndexMeans(table: seq<Timed<Depth>>, first: int, last: int, epoch: int)
    requires first <= epoch <= last
    ensures SaysBook(BookLookup(BookPreload(table, first, last), epoch), table, epoch)
  {
    var from := AtLeast(first as real - BOOK_AGE);
    BookLookupReadsTable(table, first, last, epoch);
    LatestSays(table, from, epoch, SortByTime(Select(table, from, epoch as real)));
  }
}
