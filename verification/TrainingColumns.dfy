/**
  What the fifteen joined columns of a dataset row say about the observations known at its candle: shares, means and
  counts of the newest judged predictions and signals, sentiment, and order book.
 */
module TrainingColumns {
  import opened Options
  import opened TimedRows
  import opened ExternalSignals
  import opened AsOfFeatures
  import opened TrainingDataset

  // ----- Newest judged predictions and signals -----

  /** The rows of the table that carry a judgement, each as often as there. */
  ghost predicate HoldsJudged(judged: seq<Timed<Resolution>>, table: seq<Timed<Resolution>>) {
    forall row :: multiset(judged)[row] == if row.data.correct.Some? then multiset(table)[row] else 0
  }

  lemma {:induction false} JudgedOccurs(table: seq<Timed<Resolution>>, row: Timed<Resolution>)
    ensures multiset(Judged(table))[row] == if row.data.correct.Some? then multiset(table)[row] else 0
  {
    if table != [] {
      JudgedOccurs(table[1..], row);
      assert table == [table[0]] + table[1..];
    }
  }

  lemma {:induction false} JudgedCommutes(table: seq<Timed<Resolution>>, lower: Lower, upper: real)
    ensures Judged(Select(table, lower, upper)) == Select(Judged(table), lower, upper)
  {
    if table != [] { JudgedCommutes(table[1..], lower, upper); }
  }

  lemma {:induction false} FeedbackIsNewest(outcomes: seq<Timed<Resolution>>, epoch: int)
    ensures HoldsJudged(Judged(outcomes), outcomes)
    ensures IsNewest(Feedback(outcomes, epoch), Judged(outcomes), Unbounded, epoch as real, 100)
  {
    forall row { JudgedOccurs(outcomes, row); }
    JudgedCommutes(outcomes, Unbounded, epoch as real);
    NewestOfWindow(Judged(outcomes), Unbounded, epoch as real, 100);
  }

  // ----- Columns -----

  function CountOf<T>(rows: seq<Timed<T>>, p: T -> bool): nat {
    if rows == [] then 0 else (if p(rows[0].data) then 1 else 0) + CountOf(rows[1..], p)
  }

  function ReturnOf(r: Resolution): real {
    if r.actualReturn.Some? then r.actualReturn.value else 0.0
  }

  ghost predicate FeedbackColumns(columns: seq<real>, rows: seq<Timed<Resolution>>)
    requires |columns| == 15
  {
    var n := |rows| as real;
    && columns[0] * n == CountOf(rows, (r: Resolution) => r.correct == Some(true)) as real
    && columns[1] * n == SumOf(rows, ReturnOf)
    && columns[2] == n && (rows == [] ==> columns[0] == 0.0 && columns[1] == 0.0)
  }

  ghost predicate SignalColumns(columns: seq<real>, rows: seq<Timed<Signal>>)
    requires |columns| == 15
  {
    var n := |rows| as real;
    && columns[3] * n
       == CountOf(rows, (s: Signal) => s.direction == Up) as real
          - CountOf(rows, (s: Signal) => s.direction == Down) as real
    && columns[4] * 100.0 * n == SumOf(rows, (s: Signal) => s.confidence)
    && columns[5] == n && (rows == [] ==> columns[3] == 0.0 && columns[4] == 0.0)
  }

  ghost predicate ExternalColumns(columns: seq<real>, f: SentimentFeatures, b: BookFeatures)
    requires |columns| == 15
  {
    && columns[6..11] == [f.scores.compound, f.scores.positive, f.scores.negative, f.ageMinutes, f.available]
    && columns[11..] == [b.imbalance, b.depth, b.spread, b.available]
  }

  /** The columns join what was known at the epoch. */
  ghost predicate Joins(columns: seq<real>, db: Database, epoch: int) {
    exists judged, feedback, strategy, f, b ::
      && |columns| == 15
      && HoldsJudged(judged, db.outcomes) && IsNewest(feedback, judged, Unbounded, epoch as real, 100)
      && IsNewest(strategy, db.signals, Unbounded, epoch as real, 100)
      && SaysSentiment(f, db.sentiment, After(epoch as real - 86400.0), epoch)
      && SaysBook(b, db.books, epoch)
      && FeedbackColumns(columns, feedback) && SignalColumns(columns, strategy) && ExternalColumns(columns, f, b)
  }

  lemma {:induction false} HitsAreCounted(rows: seq<Timed<Resolution>>)
    ensures Hits(rows) == CountOf(rows, (r: Resolution) => r.correct == Some(true)) as real
    ensures Returns(rows) == SumOf(rows, ReturnOf)
  {
    if rows != [] { HitsAreCounted(rows[1..]); }
  }

  lemma {:induction false} BiasIsCounted(rows: seq<Timed<Signal>>)
    ensures Bias(rows)
            == CountOf(rows, (s: Signal) => s.direction == Up) as real
               - CountOf(rows, (s: Signal) => s.direction == Down) as real
    ensures Confidence(rows) == SumOf(rows, (s: Signal) => s.confidence)
  {
    if rows != [] { BiasIsCounted(rows[1..]); }
  }

  lemma MeanTimes(total: real, n: nat)
    requires n == 0 ==> total == 0.0
    ensures Mean(total, n) * n as real == total
  {
  }

  lemma {:induction false} FeedbackColumnsHold(window: seq<real>, j: Joined)
    ensures FeedbackColumns(Row(window, j)[|window|..], j.feedback)
  {
    var columns, n := Row(window, j)[|window|..], |j.feedback|;
    HitsAreCounted(j.feedback);
    MeanTimes(Hits(j.feedback), n);
    MeanTimes(Returns(j.feedback), n);
    assert columns[0] == Mean(Hits(j.feedback), n) && columns[1] == Mean(Returns(j.feedback), n);
  }

  lemma {:induction false} SignalColumnsHold(window: seq<real>, j: Joined)
    ensures SignalColumns(Row(window, j)[|window|..], j.strategy)
  {
    var columns, n := Row(window, j)[|window|..], |j.strategy|;
    BiasIsCounted(j.strategy);
    MeanTimes(Bias(j.strategy), n);
    MeanTimes(Confidence(j.strategy), n);
    assert columns[3] == Mean(Bias(j.strategy), n) && columns[4] == Mean(Confidence(j.strategy), n) / 100.0;
  }

  lemma ExternalColumnsHold(window: seq<real>, j: Joined)
    ensures ExternalColumns(Row(window, j)[|window|..], j.sentiment, j.book)
  {
  }

  lemma {:induction false} TimelineJoins(window: seq<real>, db: Database, first: int, last: int, epoch: int)
    requires first <= epoch <= last
    ensures Joins(Row(window, TimelineJoin(db, first, last, epoch))[|window|..], db, epoch)
  {
    var j := TimelineJoin(db, first, last, epoch);
    FeedbackIsNewest(db.outcomes, epoch);
    NewestOfWindow(db.signals, Unbounded, epoch as real, 100);
    SentimentIndexMeans(db.sentiment, first, last, epoch);
    BookIndexMeans(db.books, first, last, epoch);
    FeedbackColumnsHold(window, j);
    SignalColumnsHold(window, j);
    ExternalColumnsHold(window, j);
    var columns := Row(window, j)[|window|..];
    assert HoldsJudged(Judged(db.outcomes), db.outcomes)
        && IsNewest(j.feedback, Judged(db.outcomes), Unbounded, epoch as real, 100);
    assert FeedbackColumns(columns, j.feedback) && SignalColumns(columns, j.strategy)
        && ExternalColumns(columns, j.sentiment, j.book);
  }

  // ----- Every row of the dataset -----

  /** The row is the features of the window that ends at candle `i`, and then the columns that join its epoch. */
  ghost predicate RowSays(fv: seq<Candle> -> Option<seq<real>>, candles: seq<Candle>, db: Database, i: nat,
                          row: seq<real>)
  {
    && GetsRow(fv, candles, i)
    && var window := fv(candles[i - 59..i + 1]).value;
       window <= row && Joins(row[|window|..], db, candles[i].epoch)
  }

  lemma RowBegins(window: seq<real>, j: Joined)
    ensures window <= Row(window, j)
  {
  }

  lemma SampleRow(fv: seq<Candle> -> Option<seq<real>>, candles: seq<Candle>, db: Database, first: int, last: int,
                  i: nat)
    requires WINDOW <= i < |candles| - 1
    ensures var sample := SampleAt(fv, candles, db, first, last, i);
      sample.Some? ==>
        GetsRow(fv, candles, i)
        && sample.value.row == Row(fv(candles[i - 59..i + 1]).value, TimelineJoin(db, first, last, candles[i].epoch))
  {
  }

  lemma {:induction false} SampleSays(fv: seq<Candle> -> Option<seq<real>>, candles: seq<Candle>, db: Database,
                                      first: int, last: int, i: nat, row: seq<real>)
    requires GetsRow(fv, candles, i) && first <= candles[i].epoch <= last
    requires row == Row(fv(candles[i - 59..i + 1]).value, TimelineJoin(db, first, last, candles[i].epoch))
    ensures RowSays(fv, candles, db, i, row)
  {
    var window, epoch := fv(candles[i - 59..i + 1]).value, candles[i].epoch;
    RowBegins(window, TimelineJoin(db, first, last, epoch));
    TimelineJoins(window, db, first, last, epoch);
  }

  lemma PickIsSample(fv: seq<Candle> -> Option<seq<real>>, candles: seq<Candle>, db: Database, i: nat)
    requires MIN_CANDLES <= |candles| && WINDOW <= i < |candles| - 1
    ensures Picks(fv, candles, db)[i - WINDOW]
            == SampleAt(fv, candles, db, candles[WINDOW].epoch, candles[|candles| - 2].epoch, i)
  {
  }

  lemma {:induction false} PickSays(fv: seq<Candle> -> Option<seq<real>>, candles: seq<Candle>, db: Database, i: nat,
                                    pick: Option<Sample>)
    requires MIN_CANDLES <= |candles| && WINDOW <= i < |candles| - 1
    requires candles[WINDOW].epoch <= candles[i].epoch <= candles[|candles| - 2].epoch
    requires pick == Picks(fv, candles, db)[i - WINDOW] && pick.Some?
    ensures RowSays(fv, candles, db, i, pick.value.row)
  {
    var first, last := candles[WINDOW].epoch, candles[|candles| - 2].epoch;
    PickIsSample(fv, candles, db, i);
    SampleRow(fv, candles, db, first, last, i);
    SampleSays(fv, candles, db, first, last, i, pick.value.row);
  }

  /** Every row that was picked says what it should. */
  ghost predicate RowsSay(fv: seq<Candle> -> Option<seq<real>>, candles: seq<Candle>, db: Database, at: seq<nat>,
                          rows: seq<seq<real>>)
  {
    |at| == |rows| && forall k :: 0 <= k < |at| ==> RowSays(fv, candles, db, at[k], rows[k])
  }

  lemma {:induction false} PickedRowsSay(fv: seq<Candle> -> Option<seq<real>>, candles: seq<Candle>, db: Database,
                                         at: seq<nat>, rows: seq<seq<real>>)
    requires MIN_CANDLES <= |candles| && Chronological(candles) && PickedAt(Picks(fv, candles, db), at, rows)
    ensures RowsSay(fv, candles, db, at, rows)
  {
    forall k | 0 <= k < |at| ensures RowSays(fv, candles, db, at[k], rows[k]) {
      EpochsAscend(candles, WINDOW, at[k]);
      EpochsAscend(candles, at[k], |candles| - 2);
      PickSays(fv, candles, db, at[k], Picks(fv, candles, db)[at[k] - WINDOW]);
    }
  }

  /**
    On chronological candles: each row holds the features of its candle's window and the joins of its epoch, and each
    label and return tells how the next candle closed.
   */
  lemma {:induction false} DatasetSays(fv: seq<Candle> -> Option<seq<real>>, candles: seq<Candle>, db: Database,
                                       rows: seq<seq<real>>, labels: seq<int>, nextReturns: seq<real>)
    returns (at: seq<nat>)
    requires MIN_CANDLES <= |candles| && Chronological(candles)
    requires Columns(rows, labels, nextReturns, Samples(fv, candles, db))
    ensures Describes(fv, candles, at, rows, labels, nextReturns) && RowsSay(fv, candles, db, at, rows)
  {
    at := SamplesDescribe(fv, candles, db, rows, labels, nextReturns);
    PickedRowsSay(fv, candles, db, at, rows);
  }
}
