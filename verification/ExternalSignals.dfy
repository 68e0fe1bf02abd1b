/**
  External observations joined as of an epoch: by one query per epoch, and by preloading the rows once
  and bisecting.  All arithmetic is exact; times are seconds.
 */
module ExternalSignals {
  import opened TimedRows

  datatype Scores = Scores(compound: real, positive: real, negative: real)

  datatype Depth = Depth(imbalance: real, bid: real, ask: real, spread: real)

  datatype SentimentFeatures = SentimentFeatures(scores: Scores, ageMinutes: real, available: real)

  datatype BookFeatures = BookFeatures(imbalance: real, depth: real, spread: real, available: real)

  const DAY: real := 86400.0
  const BOOK_AGE: real := 300.0
  const NO_SENTIMENT := SentimentFeatures(Scores(0.0, 0.0, 0.0), 1440.0, 0.0)
  const NO_BOOK := BookFeatures(0.0, 0.0, 0.0, 0.0)

  function Total(rows: seq<Timed<Scores>>): Scores {
    if rows == [] then Scores(0.0, 0.0, 0.0)
    else
      var t, d := Total(rows[1..]), rows[0].data;
      Scores(d.compound + t.compound, d.positive + t.positive, d.negative + t.negative)
  }

  function Average(rows: seq<Timed<Scores>>): Scores
    requires rows != []
  {
    var t, n := Total(rows), |rows| as real;
    Scores(t.compound / n, t.positive / n, t.negative / n)
  }

  function AgeMinutes(cutoff: real, time: real): real {
    if cutoff - time < 0.0 then 0.0 else (cutoff - time) / 60.0
  }

  // ----- One query per epoch -----

  function SentimentAsOf(table: seq<Timed<Scores>>, epoch: int): SentimentFeatures {
    var cutoff := epoch as real;
    var recent := First(NewestFirst(Select(table, AtLeast(cutoff - DAY), cutoff)), 100);
    if recent == [] then NO_SENTIMENT
    else SentimentFeatures(Average(recent), AgeMinutes(cutoff, recent[0].time), 1.0)
  }

  function ReadBook(row: Timed<Depth>): BookFeatures {
    BookFeatures(row.data.imbalance, row.data.bid + row.data.ask, row.data.spread, 1.0)
  }

  function BookAsOf(table: seq<Timed<Depth>>, epoch: int): BookFeatures {
    var cutoff := epoch as real;
    var rows := NewestFirst(Select(table, Unbounded, cutoff));
    if rows == [] || cutoff - rows[0].time > BOOK_AGE then NO_BOOK else ReadBook(rows[0])
  }

  // ----- Preload once, then look up -----

  /** What the timeline holds for sentiment. */
  function SentimentPreload(table: seq<Timed<Scores>>, first: int, last: int): seq<Timed<Scores>> {
    SortByTime(Select(table, AtLeast(first as real - DAY), last as real))
  }

  function BookPreload(table: seq<Timed<Depth>>, first: int, last: int): seq<Timed<Depth>> {
    SortByTime(Select(table, AtLeast(first as real - BOOK_AGE), last as real))
  }

  function ReadRecent(recent: seq<Timed<Scores>>, cutoff: real): SentimentFeatures {
    if recent == [] then NO_SENTIMENT
    else SentimentFeatures(Average(recent), AgeMinutes(cutoff, recent[|recent| - 1].time), 1.0)
  }

  function SentimentLookup(preloaded: seq<Timed<Scores>>, epoch: int): SentimentFeatures {
    var cutoff := epoch as real;
    ReadRecent(Last(Select(preloaded, After(cutoff - DAY), cutoff), 100), cutoff)
  }

  function ReadLatest(rows: seq<Timed<Depth>>, cutoff: real): BookFeatures {
    if rows == [] || cutoff - rows[|rows| - 1].time > BOOK_AGE then NO_BOOK else ReadBook(rows[|rows| - 1])
  }

  function BookLookup(preloaded: seq<Timed<Depth>>, epoch: int): BookFeatures {
    var cutoff := epoch as real;
    ReadLatest(Select(preloaded, Unbounded, cutoff), cutoff)
  }

  class ExternalSignalTimeline {
    const sentiment: seq<Timed<Scores>>
    const sentimentTimes: seq<real>
    const books: seq<Timed<Depth>>
    const bookTimes: seq<real>

    ghost predicate Valid() {
      Sorted(sentiment) && sentimentTimes == Times(sentiment) && Sorted(books) && bookTimes == Times(books)
    }

    constructor (sentimentTable: seq<Timed<Scores>>, bookTable: seq<Timed<Depth>>, first: int, last: int)
      ensures Valid()
      ensures sentiment == SentimentPreload(sentimentTable, first, last)
      ensures books == BookPreload(bookTable, first, last)
    {
      sentiment := SentimentPreload(sentimentTable, first, last);
      sentimentTimes := Times(SentimentPreload(sentimentTable, first, last));
      books := BookPreload(bookTable, first, last);
      bookTimes := Times(BookPreload(bookTable, first, last));
      new;
      SortSorts(Select(sentimentTable, AtLeast(first as real - DAY), last as real));
      SortSorts(Select(bookTable, AtLeast(first as real - BOOK_AGE), last as real));
    }

    /** The slice between two bisections, at most 100 rows long. */
    method RecentSentiment(cutoff: real) returns (recent: seq<Timed<Scores>>)
      requires Valid()
      ensures recent == Last(Select(sentiment, After(cutoff - DAY), cutoff), 100)
    {
      var end := BisectRight(sentimentTimes, cutoff, 0, |sentimentTimes|);
      var start := BisectRight(sentimentTimes, cutoff - DAY, 0, |sentimentTimes|);
      BisectionSelects(sentiment, cutoff - DAY, cutoff);
      var from := start;
      if end > start + 100 { from := end - 100; }
      recent := sentiment[from..end];
      assert recent == Last(sentiment[start..end], 100);
    }

    method SentimentAt(epoch: int) returns (s: SentimentFeatures)
      requires Valid()
      ensures s == SentimentLookup(sentiment, epoch)
    {
      var cutoff := epoch as real;
      var recent := RecentSentiment(cutoff);
      if recent != [] {
        s := SentimentFeatures(Average(recent), AgeMinutes(cutoff, recent[|recent| - 1].time), 1.0);
      } else {
        s := NO_SENTIMENT;
      }
    }

    method BookAt(epoch: int) returns (b: BookFeatures)
      requires Valid()
      ensures b == BookLookup(books, epoch)
    {
      var cutoff := epoch as real;
      var end := BisectRight(bookTimes, cutoff, 0, |bookTimes|);
      BisectionSelects(books, cutoff, cutoff);
      if end > 0 && cutoff - bookTimes[end - 1] <= BOOK_AGE {
        b := ReadBook(books[end - 1]);
      } else {
        b := NO_BOOK;
      }
    }
  }

  // ----- Averages -----

  lemma {:induction false} TotalSplits(a: seq<Timed<Scores>>, b: seq<Timed<Scores>>)
    ensures Total(a + b).compound == Total(a).compound + Total(b).compound
    ensures Total(a + b).positive == Total(a).positive + Total(b).positive
    ensures Total(a + b).negative == Total(a).negative + Total(b).negative
  {
    if a == [] {
      assert a + b == b;
    } else {
      assert (a + b)[1..] == a[1..] + b;
      TotalSplits(a[1..], b);
    }
  }

  lemma {:induction false} TotalReversed(rows: seq<Timed<Scores>>)
    ensures Total(Reverse(rows)) == Total(rows)
  {
    if rows != [] {
      TotalReversed(rows[1..]);
      TotalSplits(Reverse(rows[1..]), [rows[0]]);
    }
  }

  lemma MeanUnmoved(sum: real, n: real, x: real)
    requires n > 0.0
    ensures (x + sum) / (n + 1.0) == sum / n <==> x == sum / n
  {
    var m := sum / n;
    assert sum == m * n;
    if x == m { assert x + sum == m * (n + 1.0); }
    if (x + sum) / (n + 1.0) == m { assert x + sum == m * (n + 1.0) == m * n + m; }
  }

  /** Adding one row leaves the average alone exactly when the row is the average. */
  lemma AverageUnmoved(row: Timed<Scores>, rows: seq<Timed<Scores>>)
    requires rows != []
    ensures Average([row] + rows) == Average(rows) <==> row.data == Average(rows)
  {
    var t, n := Total(rows), |rows| as real;
    assert ([row] + rows)[1..] == rows;
    MeanUnmoved(t.compound, n, row.data.compound);
    MeanUnmoved(t.positive, n, row.data.positive);
    MeanUnmoved(t.negative, n, row.data.negative);
  }

  // ----- The index against the query -----

  /** The rows of the last 24 hours, without the one that is exactly 24 hours old. */
  function RecentRows(table: seq<Timed<Scores>>, epoch: int): seq<Timed<Scores>> {
    SortByTime(Select(table, After(epoch as real - DAY), epoch as real))
  }

  /** The lookup sees `RecentRows` whatever the preload, as long as the epoch is inside it. */
  lemma {:induction false} LookupReadsTable(table: seq<Timed<Scores>>, first: int, last: int, epoch: int)
    requires first <= epoch <= last
    ensures Select(SentimentPreload(table, first, last), After(epoch as real - DAY), epoch as real)
            == RecentRows(table, epoch)
  {
    PreloadIsTransparent(table, AtLeast(first as real - DAY), last as real, After(epoch as real - DAY), epoch as real);
  }

  lemma {:induction false} SelectHas<T>(rows: seq<Timed<T>>, lower: Lower, upper: real, row: Timed<T>)
    ensures row in Select(rows, lower, upper) <==> row in rows && InWindow(row.time, lower, upper)
  {
    if rows != [] {
      SelectHas(rows[1..], lower, upper, row);
      assert rows == [rows[0]] + rows[1..];
    }
  }

  lemma {:induction false} SelectKeepsDistinct<T>(rows: seq<Timed<T>>, lower: Lower, upper: real)
    requires DistinctTimes(rows)
    ensures DistinctTimes(Select(rows, lower, upper))
  {
    if rows != [] {
      var rest := Select(rows[1..], lower, upper);
      SelectKeepsDistinct(rows[1..], lower, upper);
      forall k | 0 <= k < |rest| ensures rest[k].time != rows[0].time {
        SelectHas(rows[1..], lower, upper, rest[k]);
        var i :| 0 <= i < |rows[1..]| && rows[1..][i] == rest[k];
        assert rows[i + 1] == rest[k];
      }
    }
  }

  lemma {:induction false} OrderedSelection<T>(table: seq<Timed<T>>, lower: Lower, upper: real)
    requires DistinctTimes(table)
    ensures var q := SortByTime(Select(table, lower, upper));
      && Sorted(q) && DistinctTimes(q)
      && forall row :: row in q <==> row in table && InWindow(row.time, lower, upper)
  {
    var picked := Select(table, lower, upper);
    var q := SortByTime(picked);
    SelectKeepsDistinct(table, lower, upper);
    SortKeepsDistinct(picked);
    SortSorts(picked);
    forall row ensures row in q <==> row in table && InWindow(row.time, lower, upper) {
      SelectHas(table, lower, upper, row);
      assert row in q <==> row in multiset(q);
      assert row in picked <==> row in multiset(picked);
    }
  }

  /** On ordered rows dated from `lo` to `hi`, selecting after `lo` drops at most the first row. */
  lemma {:induction false} DropBoundary<T>(q: seq<Timed<T>>, lo: real, hi: real)
    requires Sorted(q) && DistinctTimes(q) && forall row :: row in q ==> InWindow(row.time, AtLeast(lo), hi)
    ensures Select(q, After(lo), hi) == if q != [] && q[0].time == lo then q[1..] else q
  {
    forall k | 0 <= k < |q| ensures InWindow(q[k].time, AtLeast(lo), hi) {
      assert q[k] in q;
    }
    SelectIsSlice(q, After(lo), hi, if q != [] && q[0].time == lo then 1 else 0, |q|);
  }

  /** The first of the ordered rows, if it is dated `lo`. */
  function FirstAt<T>(q: seq<Timed<T>>, lo: real): seq<Timed<T>> {
    if q != [] && q[0].time == lo then [q[0]] else []
  }

  lemma FirstAtIs<T>(table: seq<Timed<T>>, q: seq<Timed<T>>, lo: real, hi: real)
    requires lo <= hi && Sorted(q) && forall row :: row in q <==> row in table && InWindow(row.time, AtLeast(lo), hi)
    ensures FirstAt(q, lo) != [] ==> q[0] in table && q[0].time == lo
    ensures FirstAt(q, lo) == [] ==> forall row :: row in table ==> row.time != lo
  {
    if row :| row in table && row.time == lo {
      assert row in q;
      FirstIsBoundary(q, lo, row);
    } else if q != [] {
      assert q[0] in q;
    }
  }

  lemma {:induction false} RecentAfterFirst(table: seq<Timed<Scores>>, lo: real, hi: real, q: seq<Timed<Scores>>)
    requires DistinctTimes(table) && lo <= hi && q == SortByTime(Select(table, AtLeast(lo), hi))
    ensures q == FirstAt(q, lo) + SortByTime(Select(table, After(lo), hi))
    ensures |FirstAt(q, lo)| <= 1 && (FirstAt(q, lo) != [] ==> q[0] in table && q[0].time == lo)
    ensures FirstAt(q, lo) == [] ==> forall row :: row in table ==> row.time != lo
  {
    OrderedSelection(table, AtLeast(lo), hi);
    PreloadIsTransparent(table, AtLeast(lo), hi, After(lo), hi);
    DropBoundary(q, lo, hi);
    FirstAtIs(table, q, lo, hi);
  }

  /** The query's ordered rows are the index's, preceded by the row exactly 24 hours old if there is one. */
  lemma {:induction false} QueryRows(table: seq<Timed<Scores>>, epoch: int) returns (boundary: seq<Timed<Scores>>)
    requires DistinctTimes(table)
    ensures SortByTime(Select(table, AtLeast(epoch as real - DAY), epoch as real))
            == boundary + RecentRows(table, epoch)
    ensures |boundary| <= 1 && (boundary != [] ==> boundary[0] in table && boundary[0].time == epoch as real - DAY)
    ensures boundary == [] ==> forall row :: row in table ==> row.time != epoch as real - DAY
  {
    var q := SortByTime(Select(table, AtLeast(epoch as real - DAY), epoch as real));
    RecentAfterFirst(table, epoch as real - DAY, epoch as real, q);
    boundary := FirstAt(q, epoch as real - DAY);
  }

  lemma FirstIsBoundary<T>(q: seq<Timed<T>>, lo: real, row: Timed<T>)
    requires Sorted(q) && row in q && row.time == lo && forall x :: x in q ==> lo <= x.time
    ensures q[0].time == lo
  {
    var i :| 0 <= i < |q| && q[i] == row;
    assert q[0] in q;
  }

  /**
    When the index and the query give the same sentiment features: no row is exactly 24 hours old, or 100
    newer rows crowd it out, or there are newer rows and it equals their average.
   */
  ghost predicate SentimentAgrees(table: seq<Timed<Scores>>, epoch: int) {
    var recent := RecentRows(table, epoch);
    forall row :: row in table && row.time == epoch as real - DAY ==>
      |recent| >= 100 || (recent != [] && row.data == Average(recent))
  }

  /** The query reads the newest 100 of its ordered rows. */
  lemma {:induction false} QueryReadsRecent(table: seq<Timed<Scores>>, epoch: int, q: seq<Timed<Scores>>)
    requires q == SortByTime(Select(table, AtLeast(epoch as real - DAY), epoch as real))
    ensures SentimentAsOf(table, epoch) == ReadRecent(Last(q, 100), epoch as real)
  {
    NewestAreLast(Select(table, AtLeast(epoch as real - DAY), epoch as real), 100);
    TotalReversed(Last(q, 100));
  }

  /** An older row in front changes what is read exactly when it is among the newest 100 and not the average. */
  lemma {:induction false} OlderRowUnreadIff(b: Timed<Scores>, r: seq<Timed<Scores>>, cutoff: real)
    ensures ReadRecent(Last([b] + r, 100), cutoff) == ReadRecent(Last(r, 100), cutoff)
            <==> |r| >= 100 || (r != [] && b.data == Average(r))
  {
    if |r| >= 100 {
      assert Last([b] + r, 100) == Last(r, 100);
    } else {
      assert Last([b] + r, 100) == [b] + r && Last(r, 100) == r;
      if r != [] { AverageUnmoved(b, r); }
    }
  }

  lemma {:induction false} SentimentIndexRefinesQueryIff(table: seq<Timed<Scores>>, first: int, last: int, epoch: int)
    requires DistinctTimes(table) && first <= epoch <= last
    ensures SentimentLookup(SentimentPreload(table, first, last), epoch) == SentimentAsOf(table, epoch)
            <==> SentimentAgrees(table, epoch)
  {
    var r := RecentRows(table, epoch);
    var boundary := QueryRows(table, epoch);
    LookupReadsTable(table, first, last, epoch);
    QueryReadsRecent(table, epoch, boundary + r);
    if boundary == [] {
      assert boundary + r == r;
    } else {
      assert boundary == [boundary[0]];
      OnlyBoundary(table, epoch, boundary[0]);
      OlderRowUnreadIff(boundary[0], r, epoch as real);
    }
  }

  lemma OnlyBoundary(table: seq<Timed<Scores>>, epoch: int, b: Timed<Scores>)
    requires DistinctTimes(table) && b in table && b.time == epoch as real - DAY
    ensures forall row :: row in table && row.time == epoch as real - DAY ==> row == b
  {
    var i :| 0 <= i < |table| && table[i] == b;
    forall row | row in table && row.time == b.time ensures row == b {
      var j :| 0 <= j < |table| && table[j] == row;
      assert i == j;
    }
  }

  /** In particular: agreement for every epoch at which no row is exactly 24 hours old. */
  lemma SentimentIndexRefinesQuery(table: seq<Timed<Scores>>, first: int, last: int, epoch: int)
    requires DistinctTimes(table) && first <= epoch <= last
    requires forall row :: row in table ==> row.time != epoch as real - DAY
    ensures SentimentLookup(SentimentPreload(table, first, last), epoch) == SentimentAsOf(table, epoch)
  {
    SentimentIndexRefinesQueryIff(table, first, last, epoch);
  }

  /** One row exactly 24 hours old: the query reports it, the index does not. */
  lemma BoundaryDifference()
    ensures var table := [Timed(0.0, Scores(1.0, 1.0, 0.0))];
      && SentimentAsOf(table, 86400) == SentimentFeatures(Scores(1.0, 1.0, 0.0), 1440.0, 1.0)
      && SentimentLookup(SentimentPreload(table, 86400, 86400), 86400) == NO_SENTIMENT
  {
    var row := Timed(0.0, Scores(1.0, 1.0, 0.0));
    var table := [row];
    assert table[1..] == [];
    assert Select(table, AtLeast(0.0), 86400.0) == [row] + Select([], AtLeast(0.0), 86400.0) == table;
    assert Select(table, After(0.0), 86400.0) == Select([], After(0.0), 86400.0) == [];
    assert SortByTime(table) == table && Reverse(table) == table;
    assert Total(table).compound == 1.0 + Total([]).compound;
  }

  /** The book lookup does not depend on how far right the preload reaches. */
  lemma BookLookupReadsTable(table: seq<Timed<Depth>>, first: int, last: int, epoch: int)
    requires first <= epoch <= last
    ensures Select(BookPreload(table, first, last), Unbounded, epoch as real)
            == SortByTime(Select(table, AtLeast(first as real - BOOK_AGE), epoch as real))
  {
    var cutoff, from := epoch as real, first as real - BOOK_AGE;
    SelectCommutesWithSort(table, AtLeast(from), last as real);
    SelectCommutesWithSort(table, AtLeast(from), cutoff);
    SelectTwice(SortByTime(table), AtLeast(from), last as real, cutoff);
  }

  /** The order book has no boundary case: within the preload the index always answers like the query. */
  lemma BookIndexRefinesQuery(table: seq<Timed<Depth>>, first: int, last: int, epoch: int)
    requires DistinctTimes(table) && first <= epoch <= last
    ensures BookLookup(BookPreload(table, first, last), epoch) == BookAsOf(table, epoch)
  {
    var cutoff, from := epoch as real, first as real - BOOK_AGE;
    var all := SortByTime(Select(table, Unbounded, cutoff));
    OrderedSelection(table, Unbounded, cutoff);
    BookLookupReadsTable(table, first, last, epoch);
    PreloadIsTransparent(table, Unbounded, cutoff, AtLeast(from), cutoff);
    var i := NearRows(all, from, cutoff);
    LatestNearBook(all, Select(BookPreload(table, first, last), Unbounded, cutoff), i, from, cutoff);
  }

  /** Dropping rows that are too old to be read does not change what is read. */
  lemma LatestNearBook(all: seq<Timed<Depth>>, near: seq<Timed<Depth>>, i: nat, from: real, cutoff: real)
    requires i <= |all| && near == all[i..] && from <= cutoff - BOOK_AGE
    requires forall k :: 0 <= k < i ==> all[k].time < from
    ensures ReadLatest(all, cutoff) == ReadLatest(near, cutoff)
  {
  }

  /** The rows from `from` on are a tail of the ordered rows. */
  lemma NearRows<T>(all: seq<Timed<T>>, from: real, cutoff: real) returns (i: nat)
    requires Sorted(all) && forall row :: row in all ==> row.time <= cutoff
    ensures i <= |all| && Select(all, AtLeast(from), cutoff) == all[i..]
    ensures forall k :: 0 <= k < i ==> all[k].time < from
  {
    i := FirstFrom(all, from);
    forall k | 0 <= k < |all| ensures all[k].time <= cutoff { assert all[k] in all; }
    SelectIsSlice(all, AtLeast(from), cutoff, i, |all|);
  }

  lemma {:induction false} SelectTwice<T>(rows: seq<Timed<T>>, lower: Lower, outer: real, upper: real)
    requires upper <= outer
    ensures Select(Select(rows, lower, outer), Unbounded, upper) == Select(rows, lower, upper)
  {
    if rows != [] {
      SelectTwice(rows[1..], lower, outer, upper);
      var rest := Select(rows[1..], lower, outer);
      if InWindow(rows[0].time, lower, outer) {
        assert ([rows[0]] + rest)[1..] == rest;
      }
    }
  }

  lemma {:induction false} FirstFrom<T>(rows: seq<Timed<T>>, from: real) returns (i: nat)
    requires Sorted(rows)
    ensures i <= |rows|
    ensures forall k :: 0 <= k < i ==> rows[k].time < from
    ensures forall k :: i <= k < |rows| ==> from <= rows[k].time
  {
    if rows == [] || from <= rows[0].time {
      i := 0;
    } else {
      var j := FirstFrom(rows[1..], from);
      i := j + 1;
    }
  }
}
