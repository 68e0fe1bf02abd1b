/**
  The dataset builder: one sample per candle with a full 60-candle window, its features joined as of the
  candle's epoch, its label taken from the next candle.  The candlestick features themselves are an
  unknown function of the window, which may fail.
 */
module TrainingDataset {
  import opened Options
  import opened TimedRows
  import opened ExternalSignals

  datatype Candle = Candle(epoch: int, close: real, shape: seq<real>)

  datatype Resolution = Resolution(correct: Option<bool>, actualReturn: Option<real>)

  datatype Direction = Up | Down | Other

  datatype Signal = Signal(direction: Direction, confidence: real)

  datatype Database = Database(
    sentiment: seq<Timed<Scores>>,
    books: seq<Timed<Depth>>,
    outcomes: seq<Timed<Resolution>>,
    signals: seq<Timed<Signal>>)

  /** Everything that is joined to a candle as of its epoch: two lists of newest rows and two lookups. */
  datatype Joined = Joined(
    feedback: seq<Timed<Resolution>>, strategy: seq<Timed<Signal>>, sentiment: SentimentFeatures, book: BookFeatures)

  /** One row of numbers, its label, and the return the label stands for. */
  datatype Sample = Sample(row: seq<real>, target: int, nextReturn: real)

  datatype BuildError = TooFewCandles | NoValidRows

  datatype Built =
    | Dataset(rows: seq<seq<real>>, labels: seq<int>, nextReturns: seq<real>)
    | Refused(error: BuildError)

  const WINDOW := 60
  const MIN_CANDLES := 251

  // ----- As-of rows -----

  function Judged(rows: seq<Timed<Resolution>>): seq<Timed<Resolution>> {
    if rows == [] then []
    else if rows[0].data.correct.Some? then [rows[0]] + Judged(rows[1..])
    else Judged(rows[1..])
  }

  /** The newest 100 judged predictions resolved no later than the epoch. */
  function Feedback(outcomes: seq<Timed<Resolution>>, epoch: int): seq<Timed<Resolution>> {
    First(NewestFirst(Judged(Select(outcomes, Unbounded, epoch as real))), 100)
  }

  /** The newest 100 signals dated no later than the epoch. */
  function Strategy(signals: seq<Timed<Signal>>, epoch: int): seq<Timed<Signal>> {
    First(NewestFirst(Select(signals, Unbounded, epoch as real)), 100)
  }

  // ----- The numbers of a row -----

  function Hits(rows: seq<Timed<Resolution>>): real {
    if rows == [] then 0.0 else (if rows[0].data.correct == Some(true) then 1.0 else 0.0) + Hits(rows[1..])
  }

  function Returns(rows: seq<Timed<Resolution>>): real {
    if rows == [] then 0.0
    else (if rows[0].data.actualReturn.Some? then rows[0].data.actualReturn.value else 0.0) + Returns(rows[1..])
  }

  function Bias(rows: seq<Timed<Signal>>): real {
    if rows == [] then 0.0
    else (match rows[0].data.direction case Up => 1.0 case Down => -1.0 case Other => 0.0) + Bias(rows[1..])
  }

  function Confidence(rows: seq<Timed<Signal>>): real {
    if rows == [] then 0.0 else rows[0].data.confidence + Confidence(rows[1..])
  }

  function Mean(total: real, count: nat): real {
    if count == 0 then 0.0 else total / count as real
  }

  /** The numbers of one row in the order of the program's columns. */
  function Row(window: seq<real>, j: Joined): seq<real> {
    var m, n := |j.feedback|, |j.strategy|;
    window
    + [Mean(Hits(j.feedback), m), Mean(Returns(j.feedback), m), m as real]
    + [Mean(Bias(j.strategy), n), Mean(Confidence(j.strategy), n) / 100.0, n as real]
    + [j.sentiment.scores.compound, j.sentiment.scores.positive, j.sentiment.scores.negative,
       j.sentiment.ageMinutes, j.sentiment.available]
    + [j.book.imbalance, j.book.depth, j.book.spread, j.book.available]
  }

  // ----- Building -----

  function Join(db: Database, sentiment: seq<Timed<Scores>>, books: seq<Timed<Depth>>, epoch: int): Joined {
    Joined(Feedback(db.outcomes, epoch), Strategy(db.signals, epoch),
           SentimentLookup(sentiment, epoch), BookLookup(books, epoch))
  }

  /** The row of a window that yields features. */
  function NumbersOf(window: Option<seq<real>>, joined: Joined): Option<seq<real>> {
    if window.None? then None else Some(Row(window.value, joined))
  }

  function MakeSample(row: Option<seq<real>>, close: real, nextClose: real): Option<Sample> {
    if row.None? || close == 0.0 then None
    else
      var nextReturn := (nextClose - close) / close;
      Some(Sample(row.value, if nextReturn > 0.0 then 1 else 0, nextReturn))
  }

  /** Joining through a timeline preloaded for the epochs from `first` to `last`. */
  function TimelineJoin(db: Database, first: int, last: int, epoch: int): Joined {
    Join(db, SentimentPreload(db.sentiment, first, last), BookPreload(db.books, first, last), epoch)
  }

  /** The sample of candle `i` over the preloaded rows, if its window yields features and its close is not zero. */
  function SampleOver(fv: seq<Candle> -> Option<seq<real>>, candles: seq<Candle>, db: Database,
                      sentiment: seq<Timed<Scores>>, books: seq<Timed<Depth>>, i: nat): Option<Sample>
    requires WINDOW <= i < |candles| - 1
  {
    MakeSample(NumbersOf(fv(candles[i - 59..i + 1]), Join(db, sentiment, books, candles[i].epoch)),
               candles[i].close, candles[i + 1].close)
  }

  /** The sample of candle `i` with the rows preloaded for the epochs from `first` to `last`. */
  function SampleAt(fv: seq<Candle> -> Option<seq<real>>, candles: seq<Candle>, db: Database,
                    first: int, last: int, i: nat): Option<Sample>
    requires WINDOW <= i < |candles| - 1
  {
    SampleOver(fv, candles, db, SentimentPreload(db.sentiment, first, last), BookPreload(db.books, first, last), i)
  }

  /** What the candles from 60 on, but the last, contribute over the preloaded rows. */
  function PicksOver(fv: seq<Candle> -> Option<seq<real>>, candles: seq<Candle>, db: Database,
                     sentiment: seq<Timed<Scores>>, books: seq<Timed<Depth>>): (picks: seq<Option<Sample>>)
    requires MIN_CANDLES <= |candles|
    ensures |picks| == |candles| - 1 - WINDOW
  {
    seq(|candles| - 1 - WINDOW, k requires 0 <= k < |candles| - 1 - WINDOW =>
      SampleOver(fv, candles, db, sentiment, books, WINDOW + k))
  }

  /** What they contribute with the rows preloaded for the candles that get a sample. */
  function Picks(fv: seq<Candle> -> Option<seq<real>>, candles: seq<Candle>, db: Database): (picks: seq<Option<Sample>>)
    requires MIN_CANDLES <= |candles|
    ensures |picks| == |candles| - 1 - WINDOW
  {
    var first, last := candles[WINDOW].epoch, candles[|candles| - 2].epoch;
    PicksOver(fv, candles, db, SentimentPreload(db.sentiment, first, last), BookPreload(db.books, first, last))
  }

  function Extend(samples: seq<Sample>, sample: Option<Sample>): seq<Sample> {
    if sample.Some? then samples + [sample.value] else samples
  }

  function Collect(picks: seq<Option<Sample>>): seq<Sample> {
    if picks == [] then [] else Extend(Collect(picks[..|picks| - 1]), picks[|picks| - 1])
  }

  function Samples(fv: seq<Candle> -> Option<seq<real>>, candles: seq<Candle>, db: Database): seq<Sample>
    requires MIN_CANDLES <= |candles|
  {
    Collect(Picks(fv, candles, db))
  }

  /** Three lists that hold the samples between them. */
  ghost predicate Columns(rows: seq<seq<real>>, labels: seq<int>, nextReturns: seq<real>, samples: seq<Sample>)
    decreases |samples|
  {
    if samples == [] then rows == [] && labels == [] && nextReturns == []
    else
      var n := |samples| - 1;
      |rows| == |labels| == |nextReturns| == n + 1
      && Sample(rows[n], labels[n], nextReturns[n]) == samples[n]
      && Columns(rows[..n], labels[..n], nextReturns[..n], samples[..n])
  }

  lemma {:induction false} ColumnsHold(rows: seq<seq<real>>, labels: seq<int>, nextReturns: seq<real>,
                                       samples: seq<Sample>)
    requires Columns(rows, labels, nextReturns, samples)
    ensures |rows| == |labels| == |nextReturns| == |samples|
    ensures forall k :: 0 <= k < |samples| ==> Sample(rows[k], labels[k], nextReturns[k]) == samples[k]
    decreases |samples|
  {
    if samples != [] {
      var n := |samples| - 1;
      ColumnsHold(rows[..n], labels[..n], nextReturns[..n], samples[..n]);
      forall k | 0 <= k < n ensures Sample(rows[k], labels[k], nextReturns[k]) == samples[k] {
        assert samples[..n][k] == samples[k];
      }
    }
  }

  // ----- What the dataset says about the candles -----

  ghost predicate Increasing(at: seq<nat>) {
    forall a, b :: 0 <= a < b < |at| ==> at[a] < at[b]
  }

  /** Candle `i` gets a row: its window is full and yields features, a candle follows, and its close is not zero. */
  ghost predicate GetsRow(fv: seq<Candle> -> Option<seq<real>>, candles: seq<Candle>, i: nat) {
    60 <= i < |candles| - 1 && fv(candles[i - 59..i + 1]).Some? && candles[i].close != 0.0
  }

  /** The row begins with the features of the window that ends at candle `i`. */
  ghost predicate BeginsWith(fv: seq<Candle> -> Option<seq<real>>, candles: seq<Candle>, i: nat, row: seq<real>)
    requires GetsRow(fv, candles, i)
  {
    fv(candles[i - 59..i + 1]).value <= row
  }

  /** Label and return tell how the next close compares to the close of candle `i`. */
  ghost predicate TellsNext(candles: seq<Candle>, i: nat, target: int, nextReturn: real)
    requires i < |candles| - 1 && candles[i].close != 0.0
  {
    var close, next := candles[i].close, candles[i + 1].close;
    && nextReturn * close == next - close
    && (target == 1 || target == 0)
    && (target == 1 <==> if close > 0.0 then next > close else next < close)
  }

  /** The lists hold one row, label and return for each candle that gets a row, in the order of the candles. */
  ghost predicate Describes(fv: seq<Candle> -> Option<seq<real>>, candles: seq<Candle>, at: seq<nat>,
                            rows: seq<seq<real>>, labels: seq<int>, nextReturns: seq<real>)
  {
    && |at| == |rows| == |labels| == |nextReturns| && Increasing(at)
    && (forall i: nat :: i in at <==> GetsRow(fv, candles, i))
    && forall k :: 0 <= k < |at| ==>
         BeginsWith(fv, candles, at[k], rows[k]) && TellsNext(candles, at[k], labels[k], nextReturns[k])
  }

  /** The samples are the picks at these positions, and no other pick is a sample. */
  ghost predicate Located(picks: seq<Option<Sample>>, at: seq<nat>, samples: seq<Sample>) {
    && |at| == |samples| && Increasing(at)
    && (forall i: nat {:trigger i in at} :: i in at <==> i < |picks| && picks[i].Some?)
    && forall k :: 0 <= k < |at| ==> at[k] < |picks| && picks[at[k]] == Some(samples[k])
  }

  lemma LocatedSkip(picks: seq<Option<Sample>>, at: seq<nat>, samples: seq<Sample>)
    requires picks != [] && Located(picks[..|picks| - 1], at, samples) && picks[|picks| - 1].None?
    ensures Located(picks, at, samples)
  {
  }

  lemma LocatedTake(picks: seq<Option<Sample>>, at: seq<nat>, samples: seq<Sample>, sample: Sample)
    requires picks != [] && Located(picks[..|picks| - 1], at, samples) && picks[|picks| - 1] == Some(sample)
    ensures Located(picks, at + [|picks| - 1], samples + [sample])
  {
    var n := |picks| - 1;
    var more := at + [n];
    forall i: nat ensures i in more <==> i < |picks| && picks[i].Some? {
      assert i in more <==> i in at || i == n;
    }
    forall k | 0 <= k < |more| ensures more[k] < |picks| && picks[more[k]] == Some((samples + [sample])[k]) {
      if k < |at| { assert more[k] == at[k]; }
    }
  }

  /** Where in the candles the samples come from. */
  lemma {:induction false} CollectedAt(picks: seq<Option<Sample>>) returns (at: seq<nat>)
    ensures Located(picks, at, Collect(picks))
  {
    if picks == [] {
      at := [];
    } else {
      var n := |picks| - 1;
      at := CollectedAt(picks[..n]);
      if picks[n].Some? {
        LocatedTake(picks, at, Collect(picks[..n]), picks[n].value);
        at := at + [n];
      } else {
        LocatedSkip(picks, at, Collect(picks[..n]));
      }
    }
  }

  lemma SignOfQuotient(a: real, b: real, r: real)
    requires b != 0.0 && r == a / b
    ensures r * b == a && (r > 0.0 <==> if b > 0.0 then a > 0.0 else a < 0.0)
  {
    assert r * b == a;
    if r > 0.0 && b > 0.0 { assert r * b > 0.0; }
    if r > 0.0 && b < 0.0 { assert r * -b > 0.0; }
    if r <= 0.0 && b > 0.0 { assert r * b <= 0.0; }
    if r <= 0.0 && b < 0.0 { assert r * -b <= 0.0; }
  }

  lemma SampleTells(fv: seq<Candle> -> Option<seq<real>>, candles: seq<Candle>, db: Database,
                    sentiment: seq<Timed<Scores>>, books: seq<Timed<Depth>>, i: nat)
    requires WINDOW <= i < |candles| - 1
    ensures var sample := SampleOver(fv, candles, db, sentiment, books, i);
      && (sample.Some? <==> GetsRow(fv, candles, i))
      && (sample.Some? ==>
            BeginsWith(fv, candles, i, sample.value.row)
            && TellsNext(candles, i, sample.value.target, sample.value.nextReturn))
  {
    if candles[i].close != 0.0 {
      var change := candles[i + 1].close - candles[i].close;
      SignOfQuotient(change, candles[i].close, change / candles[i].close);
    }
  }

  /** The picks tell, candle by candle, what the dataset has to say. */
  ghost predicate PickTells(fv: seq<Candle> -> Option<seq<real>>, candles: seq<Candle>, pick: Option<Sample>, i: nat) {
    && (pick.Some? <==> GetsRow(fv, candles, i))
    && (pick.Some? ==>
          BeginsWith(fv, candles, i, pick.value.row)
          && TellsNext(candles, i, pick.value.target, pick.value.nextReturn))
  }

  ghost predicate PicksTell(fv: seq<Candle> -> Option<seq<real>>, candles: seq<Candle>, picks: seq<Option<Sample>>) {
    forall k :: 0 <= k < |picks| ==> PickTells(fv, candles, picks[k], WINDOW + k)
  }

  lemma {:induction false} PicksDoTell(fv: seq<Candle> -> Option<seq<real>>, candles: seq<Candle>, db: Database)
    requires MIN_CANDLES <= |candles|
    ensures PicksTell(fv, candles, Picks(fv, candles, db))
  {
    var first, last := candles[WINDOW].epoch, candles[|candles| - 2].epoch;
    var sentiment, books := SentimentPreload(db.sentiment, first, last), BookPreload(db.books, first, last);
    var picks := Picks(fv, candles, db);
    forall k | 0 <= k < |picks| ensures PickTells(fv, candles, picks[k], WINDOW + k) {
      assert picks[k] == SampleOver(fv, candles, db, sentiment, books, WINDOW + k);
      SampleTells(fv, candles, db, sentiment, books, WINDOW + k);
    }
  }

  /** Row by row, the candle it comes from has picked it. */
  ghost predicate PickedAt(picks: seq<Option<Sample>>, at: seq<nat>, rows: seq<seq<real>>) {
    |at| == |rows|
    && forall k :: 0 <= k < |at| ==>
         WINDOW <= at[k] < WINDOW + |picks| && picks[at[k] - WINDOW].Some?
         && picks[at[k] - WINDOW].value.row == rows[k]
  }

  lemma {:induction false} PicksDescribe(fv: seq<Candle> -> Option<seq<real>>, candles: seq<Candle>,
                                         picks: seq<Option<Sample>>, rows: seq<seq<real>>, labels: seq<int>,
                                         nextReturns: seq<real>) returns (at: seq<nat>)
    requires |picks| == |candles| - 1 - WINDOW && PicksTell(fv, candles, picks)
    requires |rows| == |labels| == |nextReturns| == |Collect(picks)|
    requires forall k :: 0 <= k < |rows| ==> Sample(rows[k], labels[k], nextReturns[k]) == Collect(picks)[k]
    ensures Describes(fv, candles, at, rows, labels, nextReturns) && PickedAt(picks, at, rows)
  {
    var from := CollectedAt(picks);
    at := seq(|from|, k requires 0 <= k < |from| => WINDOW + from[k]);
    LocatedDescribes(fv, candles, picks, Collect(picks), from, at, rows, labels, nextReturns);
  }

  lemma {:induction false} LocatedDescribes(fv: seq<Candle> -> Option<seq<real>>, candles: seq<Candle>,
                                            picks: seq<Option<Sample>>, samples: seq<Sample>, from: seq<nat>,
                                            at: seq<nat>, rows: seq<seq<real>>, labels: seq<int>,
                                            nextReturns: seq<real>)
    requires |picks| == |candles| - 1 - WINDOW && PicksTell(fv, candles, picks) && Located(picks, from, samples)
    requires |at| == |from| && forall k :: 0 <= k < |at| ==> at[k] == WINDOW + from[k]
    requires |rows| == |labels| == |nextReturns| == |samples|
    requires forall k :: 0 <= k < |rows| ==> Sample(rows[k], labels[k], nextReturns[k]) == samples[k]
    ensures Describes(fv, candles, at, rows, labels, nextReturns)
  {
    forall i: nat ensures i in at <==> GetsRow(fv, candles, i) {
      PickedIff(fv, candles, picks, samples, from, at, i);
    }
    forall k | 0 <= k < |at|
      ensures GetsRow(fv, candles, at[k])
      ensures BeginsWith(fv, candles, at[k], rows[k]) && TellsNext(candles, at[k], labels[k], nextReturns[k])
    {
      PickSaid(fv, candles, picks[from[k]], at[k], rows[k], labels[k], nextReturns[k]);
    }
  }

  lemma PickedIff(fv: seq<Candle> -> Option<seq<real>>, candles: seq<Candle>, picks: seq<Option<Sample>>,
                  samples: seq<Sample>, from: seq<nat>, at: seq<nat>, i: nat)
    requires |picks| == |candles| - 1 - WINDOW && PicksTell(fv, candles, picks) && Located(picks, from, samples)
    requires |at| == |from| && forall k :: 0 <= k < |at| ==> at[k] == WINDOW + from[k]
    ensures i in at <==> GetsRow(fv, candles, i)
  {
    AtIffFrom(from, at, i);
    if WINDOW <= i < |candles| - 1 { assert PickTells(fv, candles, picks[i - WINDOW], i); }
  }

  lemma PickSaid(fv: seq<Candle> -> Option<seq<real>>, candles: seq<Candle>, pick: Option<Sample>, i: nat,
                 row: seq<real>, target: int, nextReturn: real)
    requires PickTells(fv, candles, pick, i) && pick == Some(Sample(row, target, nextReturn))
    ensures GetsRow(fv, candles, i) && BeginsWith(fv, candles, i, row) && TellsNext(candles, i, target, nextReturn)
  {
  }

  lemma AtIffFrom(from: seq<nat>, at: seq<nat>, i: nat)
    requires |at| == |from| && forall k :: 0 <= k < |at| ==> at[k] == WINDOW + from[k]
    ensures i in at <==> i >= WINDOW && i - WINDOW in from
  {
    if i in at {
      var k :| 0 <= k < |at| && at[k] == i;
      assert from[k] == i - WINDOW;
    }
    if i >= WINDOW && i - WINDOW in from {
      var k :| 0 <= k < |from| && from[k] == i - WINDOW;
      assert at[k] == i;
    }
  }

  /** What holds the samples in three lists describes the candles. */
  lemma {:induction false} SamplesDescribe(fv: seq<Candle> -> Option<seq<real>>, candles: seq<Candle>, db: Database,
                                           rows: seq<seq<real>>, labels: seq<int>, nextReturns: seq<real>)
    returns (at: seq<nat>)
    requires MIN_CANDLES <= |candles| && Columns(rows, labels, nextReturns, Samples(fv, candles, db))
    ensures Describes(fv, candles, at, rows, labels, nextReturns) && PickedAt(Picks(fv, candles, db), at, rows)
  {
    PicksDoTell(fv, candles, db);
    ColumnsHold(rows, labels, nextReturns, Samples(fv, candles, db));
    at := PicksDescribe(fv, candles, Picks(fv, candles, db), rows, labels, nextReturns);
  }

  // ----- The loop -----

  method JoinAt(timeline: ExternalSignalTimeline, db: Database, epoch: int) returns (joined: Joined)
    requires timeline.Valid()
    ensures joined == Join(db, timeline.sentiment, timeline.books, epoch)
  {
    var sentiment := timeline.SentimentAt(epoch);
    var book := timeline.BookAt(epoch);
    joined := Joined(Feedback(db.outcomes, epoch), Strategy(db.signals, epoch), sentiment, book);
  }

  /** One round of the loop: append to all three lists, or to none. */
  method AddRow(rows: seq<seq<real>>, labels: seq<int>, nextReturns: seq<real>,
                row: Option<seq<real>>, currentClose: real, nextClose: real, ghost samples: seq<Sample>)
    returns (rows': seq<seq<real>>, labels': seq<int>, nextReturns': seq<real>)
    requires Columns(rows, labels, nextReturns, samples)
    ensures Columns(rows', labels', nextReturns', Extend(samples, MakeSample(row, currentClose, nextClose)))
  {
    rows', labels', nextReturns' := rows, labels, nextReturns;
    if row.Some? && currentClose != 0.0 {
      var nextReturn := (nextClose - currentClose) / currentClose;
      rows' := rows' + [row.value];
      labels' := labels' + [if nextReturn > 0.0 then 1 else 0];
      nextReturns' := nextReturns' + [nextReturn];
    }
  }

  /** The three lists hold the first `count` picks that are samples. */
  ghost predicate Collected(picks: seq<Option<Sample>>, count: nat,
                            rows: seq<seq<real>>, labels: seq<int>, nextReturns: seq<real>)
  {
    count <= |picks| && Columns(rows, labels, nextReturns, Collect(picks[..count]))
  }

  lemma CollectNext(picks: seq<Option<Sample>>, count: nat)
    requires count < |picks|
    ensures Collect(picks[..count + 1]) == Extend(Collect(picks[..count]), picks[count])
  {
    assert picks[..count + 1][..count] == picks[..count];
  }

  /** One round of the loop on candle `i`. */
  method CollectCandle(fv: seq<Candle> -> Option<seq<real>>, candles: seq<Candle>, db: Database,
                       timeline: ExternalSignalTimeline, ghost picks: seq<Option<Sample>>,
                       i: nat, rows: seq<seq<real>>, labels: seq<int>, nextReturns: seq<real>)
    returns (rows': seq<seq<real>>, labels': seq<int>, nextReturns': seq<real>)
    requires WINDOW <= i < |candles| - 1 && |picks| == |candles| - 1 - WINDOW && timeline.Valid()
    requires picks[i - WINDOW] == SampleOver(fv, candles, db, timeline.sentiment, timeline.books, i)
    requires Collected(picks, i - WINDOW, rows, labels, nextReturns)
    ensures Collected(picks, i + 1 - WINDOW, rows', labels', nextReturns')
  {
    var joined := JoinAt(timeline, db, candles[i].epoch);
    var row := NumbersOf(fv(candles[i - 59..i + 1]), joined);
    rows', labels', nextReturns' := AddRow(rows, labels, nextReturns, row, candles[i].close, candles[i + 1].close,
                                           Collect(picks[..i - WINDOW]));
    CollectNext(picks, i - WINDOW);
  }

  /** The builder's loop, with its three lists growing in step. */
  method CollectColumns(fv: seq<Candle> -> Option<seq<real>>, candles: seq<Candle>, db: Database,
                        timeline: ExternalSignalTimeline, ghost picks: seq<Option<Sample>>)
    returns (rows: seq<seq<real>>, labels: seq<int>, nextReturns: seq<real>)
    requires MIN_CANDLES <= |candles| && timeline.Valid()
    requires picks == PicksOver(fv, candles, db, timeline.sentiment, timeline.books)
    ensures Columns(rows, labels, nextReturns, Collect(picks))
  {
    rows, labels, nextReturns := [], [], [];
    for i := WINDOW to |candles| - 1
      invariant Collected(picks, i - WINDOW, rows, labels, nextReturns)
    {
      rows, labels, nextReturns := CollectCandle(fv, candles, db, timeline, picks, i, rows, labels, nextReturns);
    }
    assert picks[..|picks|] == picks;
  }

  method BuildDirectionDataset(fv: seq<Candle> -> Option<seq<real>>, candles: seq<Candle>, db: Database)
    returns (r: Built)
    ensures r == Refused(TooFewCandles) <==> |candles| < MIN_CANDLES
    ensures r == Refused(NoValidRows) <==> |candles| >= MIN_CANDLES && Samples(fv, candles, db) == []
    ensures r.Dataset? ==>
              var samples := Samples(fv, candles, db);
              && |r.rows| == |r.labels| == |r.nextReturns| == |samples|
              && forall k :: 0 <= k < |samples| ==> Sample(r.rows[k], r.labels[k], r.nextReturns[k]) == samples[k]
    ensures r.Dataset? ==> exists at :: Describes(fv, candles, at, r.rows, r.labels, r.nextReturns)
    ensures r == Refused(NoValidRows) ==> forall i: nat :: !GetsRow(fv, candles, i)
  {
    if |candles| < MIN_CANDLES {
      return Refused(TooFewCandles);
    }
    var timeline := new ExternalSignalTimeline(db.sentiment, db.books, candles[WINDOW].epoch,
                                               candles[|candles| - 2].epoch);
    var rows, labels, nextReturns := CollectColumns(fv, candles, db, timeline, Picks(fv, candles, db));
    ColumnsHold(rows, labels, nextReturns, Samples(fv, candles, db));
    ghost var at := SamplesDescribe(fv, candles, db, rows, labels, nextReturns);
    if rows == [] {
      assert forall i: nat :: i in at <==> GetsRow(fv, candles, i);
      return Refused(NoValidRows);
    }
    return Dataset(rows, labels, nextReturns);
  }

  // ----- No look-ahead -----

  /** No candle is dated before the one in front of it. */
  ghost predicate Chronological(candles: seq<Candle>) {
    var n := |candles| - 1;
    n <= 0 || (candles[n - 1].epoch <= candles[n].epoch && Chronological(candles[..n]))
  }

  lemma {:induction false} EpochsAscend(candles: seq<Candle>, i: nat, j: nat)
    requires Chronological(candles) && i <= j < |candles|
    ensures candles[i].epoch <= candles[j].epoch
    decreases |candles|
  {
    var n := |candles| - 1;
    if j < n {
      EpochsAscend(candles[..n], i, j);
    } else if i < n {
      EpochsAscend(candles[..n], i, n - 1);
    }
  }

  /** The observations that were available at an epoch. */
  function KnownAt(db: Database, epoch: int): Database {
    var cutoff := epoch as real;
    Database(Select(db.sentiment, Unbounded, cutoff), Select(db.books, Unbounded, cutoff),
             Select(db.outcomes, Unbounded, cutoff), Select(db.signals, Unbounded, cutoff))
  }

  /** Looking up through any preload that covers the epoch is looking up what was known at the epoch. */
  lemma LookupsUseKnownRows(db: Database, first: int, last: int, epoch: int)
    requires first <= epoch <= last
    ensures SentimentLookup(SentimentPreload(db.sentiment, first, last), epoch)
            == SentimentLookup(SentimentPreload(KnownAt(db, epoch).sentiment, first, epoch), epoch)
    ensures BookLookup(BookPreload(db.books, first, last), epoch)
            == BookLookup(BookPreload(KnownAt(db, epoch).books, first, epoch), epoch)
  {
    var known, cutoff := KnownAt(db, epoch), epoch as real;
    LookupReadsTable(db.sentiment, first, last, epoch);
    LookupReadsTable(known.sentiment, first, epoch, epoch);
    SelectNarrows(db.sentiment, Unbounded, cutoff, After(cutoff - DAY), cutoff);
    BookLookupReadsTable(db.books, first, last, epoch);
    BookLookupReadsTable(known.books, first, epoch, epoch);
    SelectNarrows(db.books, Unbounded, cutoff, AtLeast(first as real - BOOK_AGE), cutoff);
  }

  lemma NewestUseKnownRows(db: Database, epoch: int)
    ensures Feedback(db.outcomes, epoch) == Feedback(KnownAt(db, epoch).outcomes, epoch)
    ensures Strategy(db.signals, epoch) == Strategy(KnownAt(db, epoch).signals, epoch)
  {
    SelectNarrows(db.outcomes, Unbounded, epoch as real, Unbounded, epoch as real);
    SelectNarrows(db.signals, Unbounded, epoch as real, Unbounded, epoch as real);
  }

  /**
    What is joined at an epoch is fixed by the observations known then, however far right each preload
    reaches and whatever is observed later.
   */
  lemma JoinsDependOnThePast(da: Database, db: Database, first: int, lastA: int, lastB: int, epoch: int)
    requires first <= epoch <= lastA && epoch <= lastB && KnownAt(da, epoch) == KnownAt(db, epoch)
    ensures TimelineJoin(da, first, lastA, epoch) == TimelineJoin(db, first, lastB, epoch)
  {
    LookupsUseKnownRows(da, first, lastA, epoch);
    LookupsUseKnownRows(db, first, lastB, epoch);
    NewestUseKnownRows(da, epoch);
    NewestUseKnownRows(db, epoch);
  }

  lemma SameWindow(a: seq<Candle>, b: seq<Candle>, i: nat)
    requires WINDOW <= i < |a| && i < |b| && a[..i + 1] == b[..i + 1]
    ensures a[i] == b[i] && a[WINDOW] == b[WINDOW] && a[i - 59..i + 1] == b[i - 59..i + 1]
  {
    assert a[i] == a[..i + 1][i] && b[i] == b[..i + 1][i];
    assert a[WINDOW] == a[..i + 1][WINDOW] && b[WINDOW] == b[..i + 1][WINDOW];
    assert a[i - 59..i + 1] == a[..i + 1][i - 59..] && b[i - 59..i + 1] == b[..i + 1][i - 59..];
  }

  /**
    The features of candle `i` are fixed by the candles up to `i` and the observations known at its epoch;
    only the label and the return look at the close of candle `i + 1`.
   */
  lemma FeaturesDependOnThePast(fv: seq<Candle> -> Option<seq<real>>, a: seq<Candle>, b: seq<Candle>,
                                da: Database, db: Database, lastA: int, lastB: int, i: nat)
    requires WINDOW <= i < |a| - 1 && i < |b| - 1 && a[..i + 1] == b[..i + 1]
    requires KnownAt(da, a[i].epoch) == KnownAt(db, a[i].epoch)
    requires a[WINDOW].epoch <= a[i].epoch <= lastA && a[i].epoch <= lastB
    ensures var first := a[WINDOW].epoch;
      var x, y := SampleAt(fv, a, da, first, lastA, i), SampleAt(fv, b, db, first, lastB, i);
      && (x.Some? <==> y.Some?)
      && (x.Some? ==> x.value.row == y.value.row)
      && (a[i + 1].close == b[i + 1].close ==> x == y)
  {
    SameWindow(a, b, i);
    JoinsDependOnThePast(da, db, a[WINDOW].epoch, lastA, lastB, a[i].epoch);
  }

  lemma {:induction false} CollectGrows(picks: seq<Option<Sample>>, count: nat)
    requires count <= |picks|
    ensures Collect(picks[..count]) <= Collect(picks)
  {
    var n := |picks| - 1;
    if count <= n {
      CollectGrows(picks[..n], count);
      assert picks[..n][..count] == picks[..count];
    } else {
      assert picks[..count] == picks;
    }
  }

  lemma {:induction false} EpochsOfPrefix(part: seq<Candle>, candles: seq<Candle>, i: nat)
    requires MIN_CANDLES <= |part| && part <= candles && Chronological(candles) && WINDOW <= i < |part| - 1
    ensures part[WINDOW].epoch <= part[i].epoch <= part[|part| - 2].epoch
    ensures part[i].epoch <= candles[|candles| - 2].epoch
    ensures part[..i + 1] == candles[..i + 1] && part[i + 1] == candles[i + 1]
  {
    EpochsAscend(candles, WINDOW, i);
    EpochsAscend(candles, i, |part| - 2);
    EpochsAscend(candles, i, |candles| - 2);
  }

  lemma {:induction false} SamplesAgreeOnPrefix(fv: seq<Candle> -> Option<seq<real>>, part: seq<Candle>,
                                                candles: seq<Candle>, db: Database, i: nat)
    requires MIN_CANDLES <= |part| && part <= candles && Chronological(candles) && WINDOW <= i < |part| - 1
    ensures Picks(fv, part, db)[i - WINDOW] == Picks(fv, candles, db)[i - WINDOW]
  {
    EpochsOfPrefix(part, candles, i);
    FeaturesDependOnThePast(fv, part, candles, db, db, part[|part| - 2].epoch, candles[|candles| - 2].epoch, i);
  }

  lemma {:induction false} PicksAgreeOnPrefix(fv: seq<Candle> -> Option<seq<real>>, part: seq<Candle>,
                                              candles: seq<Candle>, db: Database)
    requires MIN_CANDLES <= |part| && part <= candles && Chronological(candles)
    ensures Picks(fv, part, db) == Picks(fv, candles, db)[..|part| - 1 - WINDOW]
  {
    forall k | 0 <= k < |part| - 1 - WINDOW ensures Picks(fv, part, db)[k] == Picks(fv, candles, db)[k] {
      SamplesAgreeOnPrefix(fv, part, candles, db, WINDOW + k);
    }
  }

  /** Building on a chronological prefix of the candles gives a prefix of the full dataset. */
  lemma {:induction false} NoLookAhead(fv: seq<Candle> -> Option<seq<real>>, part: seq<Candle>, candles: seq<Candle>,
                                       db: Database)
    requires MIN_CANDLES <= |part| && part <= candles && Chronological(candles)
    ensures Samples(fv, part, db) <= Samples(fv, candles, db)
  {
    PicksAgreeOnPrefix(fv, part, candles, db);
    CollectGrows(Picks(fv, candles, db), |part| - 1 - WINDOW);
  }

  // ----- Columns -----

  const JOINED_COLUMNS := 15

  ghost predicate Wide(picks: seq<Option<Sample>>, width: nat) {
    forall k :: 0 <= k < |picks| && picks[k].Some? ==> |picks[k].value.row| == width
  }

  lemma {:induction false} CollectIsWide(picks: seq<Option<Sample>>, width: nat)
    requires Wide(picks, width)
    ensures forall k :: 0 <= k < |Collect(picks)| ==> |Collect(picks)[k].row| == width
  {
    if picks != [] { CollectIsWide(picks[..|picks| - 1], width); }
  }

  lemma SampleIsWide(fv: seq<Candle> -> Option<seq<real>>, candles: seq<Candle>, db: Database, first: int, last: int,
                     i: nat, width: nat)
    requires WINDOW <= i < |candles| - 1 && forall w :: fv(w).Some? ==> |fv(w).value| == width
    ensures var sample := SampleAt(fv, candles, db, first, last, i);
      sample.Some? ==> |sample.value.row| == width + JOINED_COLUMNS
  {
    assert fv(candles[i - 59..i + 1]).Some? ==> |fv(candles[i - 59..i + 1]).value| == width;
  }

  /** Windows of one width give rows of one width: the window's columns and the fifteen joined ones. */
  lemma {:induction false} RowsAreEven(fv: seq<Candle> -> Option<seq<real>>, candles: seq<Candle>, db: Database,
                                       width: nat)
    requires MIN_CANDLES <= |candles| && forall w :: fv(w).Some? ==> |fv(w).value| == width
    ensures forall k :: 0 <= k < |Samples(fv, candles, db)| ==>
              |Samples(fv, candles, db)[k].row| == width + JOINED_COLUMNS
  {
    var picks := Picks(fv, candles, db);
    var first, last := candles[WINDOW].epoch, candles[|candles| - 2].epoch;
    forall k | 0 <= k < |picks| && picks[k].Some? ensures |picks[k].value.row| == width + JOINED_COLUMNS {
      assert picks[k] == SampleAt(fv, candles, db, first, last, WINDOW + k);
      SampleIsWide(fv, candles, db, first, last, WINDOW + k, width);
    }
    CollectIsWide(picks, width + JOINED_COLUMNS);
  }
}
