/**
  The Redis-resilient request throttle: a sliding-window log per cache key, a circuit breaker in front of
  Redis, and a fallback cache inside the process.
 */
module SlidingWindow {
  import opened Options

  /** A cached request history, newest first, with the moment it expires. */
  datatype Entry = Entry(history: seq<real>, expiresAt: real)

  /** The clock readings of one pass through the algorithm: cache read, `now`, cache write. */
  datatype Clock = Clock(get: real, now: real, put: real) {
    predicate Ordered() { get <= now <= put }
  }

  datatype Rate = Rate(requests: nat, duration: real) {
    predicate Valid() { duration > 0.0 }
  }

  // ----- One decision -----

  function Read(cell: Option<Entry>, time: real): seq<real> {
    if cell.Some? && time < cell.value.expiresAt then cell.value.history else []
  }

  /** Drop the oldest requests while they are at or before the cutoff. */
  function Prune(history: seq<real>, cutoff: real): seq<real> {
    if history != [] && history[|history| - 1] <= cutoff then Prune(history[..|history| - 1], cutoff) else history
  }

  function Kept(rate: Rate, cell: Option<Entry>, c: Clock): seq<real> {
    Prune(Read(cell, c.get), c.now - rate.duration)
  }

  function Allows(rate: Rate, cell: Option<Entry>, c: Clock): bool {
    |Kept(rate, cell, c)| < rate.requests
  }

  function Recorded(rate: Rate, cell: Option<Entry>, c: Clock): Option<Entry> {
    Some(Entry([c.now] + Kept(rate, cell, c), c.put + rate.duration))
  }

  function Stored(rate: Rate, cell: Option<Entry>, c: Clock): Option<Entry> {
    if Allows(rate, cell, c) then Recorded(rate, cell, c) else cell
  }

  /** A cache of request histories. */
  class Cache {
    var entries: map<string, Entry>

    constructor ()
      ensures entries == map[]
    {
      entries := map[];
    }

    function Cell(key: string): Option<Entry>
      reads this
    {
      if key in entries then Some(entries[key]) else None
    }
  }

  /** The throttle's own algorithm on one cache; no key means no limit. */
  method AllowWithCache(rate: Rate, cache: Cache, key: Option<string>, c: Clock) returns (allowed: bool)
    modifies cache
    ensures key.None? ==> allowed && cache.entries == old(cache.entries)
    ensures key.Some? ==> allowed == Allows(rate, old(cache.Cell(key.value)), c)
    ensures key.Some? ==> cache.Cell(key.value) == Stored(rate, old(cache.Cell(key.value)), c)
    ensures forall k :: Some(k) != key ==> cache.Cell(k) == old(cache.Cell(k))
  {
    if key.None? {
      return true;
    }
    var history := Read(cache.Cell(key.value), c.get);
    while history != [] && history[|history| - 1] <= c.now - rate.duration
      invariant Prune(history, c.now - rate.duration) == Kept(rate, cache.Cell(key.value), c)
    {
      history := history[..|history| - 1];
    }
    if |history| >= rate.requests {
      return false;
    }
    history := [c.now] + history;
    cache.entries := cache.entries[key.value := Entry(history, c.put + rate.duration)];
    return true;
  }

  // ----- A bucket and the log of what was recorded in it -----

  ghost predicate Ascending(log: seq<real>) {
    forall i, j :: 0 <= i < j < |log| ==> log[i] <= log[j]
  }

  /** The entries after the cutoff, newest first: what a perfect memory would keep. */
  function Live(log: seq<real>, cutoff: real): seq<real> {
    if log != [] && log[|log| - 1] > cutoff then [log[|log| - 1]] + Live(log[..|log| - 1], cutoff) else []
  }

  /** The cell holds the newest part of the log, the rest is too old, and expiry comes late enough. */
  ghost predicate Tracks(rate: Rate, cell: Option<Entry>, log: seq<real>) {
    match cell
    case None => log == []
    case Some(e) =>
      var n, m := |log|, |e.history|;
      && 1 <= m <= n
      && (forall j :: 0 <= j < m ==> e.history[j] == log[n - 1 - j])
      && (forall i :: 0 <= i < n - m ==> log[i] <= log[n - 1] - rate.duration)
      && log[n - 1] + rate.duration <= e.expiresAt
  }

  /** Any `requests` + 1 successive recorded requests span at least `duration`. */
  ghost predicate Spaced(rate: Rate, log: seq<real>) {
    forall i, j :: 0 <= i && j == i + rate.requests && j < |log| ==> log[i] + rate.duration <= log[j]
  }

  ghost predicate BucketOk(rate: Rate, cell: Option<Entry>, log: seq<real>, time: real) {
    && rate.Valid() && Ascending(log) && Tracks(rate, cell, log) && Spaced(rate, log)
    && (log != [] ==> log[|log| - 1] <= time)
  }

  /** On a history that mirrors the end of the log, pruning gives exactly the live entries. */
  lemma {:induction false} PruneIsLive(history: seq<real>, log: seq<real>, cutoff: real)
    requires Ascending(log) && |history| <= |log|
    requires forall j :: 0 <= j < |history| ==> history[j] == log[|log| - 1 - j]
    requires forall i :: 0 <= i < |log| - |history| ==> log[i] <= cutoff
    ensures Prune(history, cutoff) == Live(log, cutoff)
  {
    var n, m := |log|, |history|;
    if m > 0 && history[m - 1] <= cutoff {
      PruneIsLive(history[..m - 1], log, cutoff);
    } else if m == 0 {
      if n > 0 { assert log[n - 1] <= cutoff; }
    } else {
      AllLive(history, log, cutoff);
    }
  }

  lemma {:induction false} AllLive(history: seq<real>, log: seq<real>, cutoff: real)
    requires Ascending(log) && |history| <= |log|
    requires forall j :: 0 <= j < |history| ==> history[j] == log[|log| - 1 - j]
    requires forall i :: 0 <= i < |log| - |history| ==> log[i] <= cutoff
    requires history != [] ==> cutoff < history[|history| - 1]
    ensures Live(log, cutoff) == history
    decreases |history|
  {
    var n, m := |log|, |history|;
    if m > 0 {
      assert log[n - m] == history[m - 1] && log[n - m] <= log[n - 1];
      assert history == [history[0]] + history[1..];
      AllLive(history[1..], log[..n - 1], cutoff);
    } else if n > 0 {
      assert log[n - 1] <= cutoff;
    }
  }

  /** Expiry and pruning together never hide a live request: the decision is the perfect memory's. */
  lemma {:induction false} KeptIsLive(rate: Rate, cell: Option<Entry>, log: seq<real>, c: Clock)
    requires c.Ordered() && BucketOk(rate, cell, log, c.get)
    ensures Kept(rate, cell, c) == Live(log, c.now - rate.duration)
  {
    var n := |log|;
    if cell.Some? && cell.value.expiresAt <= c.get {
      assert log[n - 1] <= c.now - rate.duration;
    } else if cell.Some? {
      PruneIsLive(cell.value.history, log, c.now - rate.duration);
    }
  }

  lemma {:induction false} LiveIsSuffix(log: seq<real>, cutoff: real)
    requires Ascending(log)
    ensures |Live(log, cutoff)| <= |log|
    ensures forall j :: 0 <= j < |Live(log, cutoff)| ==> Live(log, cutoff)[j] == log[|log| - 1 - j]
    ensures forall i :: 0 <= i < |log| - |Live(log, cutoff)| ==> log[i] <= cutoff
  {
    if log != [] && log[|log| - 1] > cutoff {
      LiveIsSuffix(log[..|log| - 1], cutoff);
    }
  }

  /** The newest part of the log, with the next request in front, tracks the longer log. */
  lemma SuffixTracks(rate: Rate, kept: seq<real>, log: seq<real>, now: real, expiresAt: real)
    requires |kept| <= |log| && now + rate.duration <= expiresAt
    requires forall j :: 0 <= j < |kept| ==> kept[j] == log[|log| - 1 - j]
    requires forall i :: 0 <= i < |log| - |kept| ==> log[i] <= now - rate.duration
    ensures Tracks(rate, Some(Entry([now] + kept, expiresAt)), log + [now])
  {
    var n := |log|;
    forall j | 0 <= j < |kept| + 1 ensures ([now] + kept)[j] == (log + [now])[n - j] {
      if j > 0 { assert kept[j - 1] == log[n - 1 - (j - 1)]; }
    }
  }

  lemma RecordTracks(rate: Rate, cell: Option<Entry>, log: seq<real>, c: Clock)
    requires c.Ordered() && BucketOk(rate, cell, log, c.get)
    ensures Tracks(rate, Recorded(rate, cell, c), log + [c.now])
  {
    KeptIsLive(rate, cell, log, c);
    LiveIsSuffix(log, c.now - rate.duration);
    SuffixTracks(rate, Kept(rate, cell, c), log, c.now, c.put + rate.duration);
  }

  lemma RecordSpaces(rate: Rate, cell: Option<Entry>, log: seq<real>, c: Clock)
    requires c.Ordered() && BucketOk(rate, cell, log, c.get) && Allows(rate, cell, c)
    ensures Spaced(rate, log + [c.now])
  {
    KeptIsLive(rate, cell, log, c);
    LiveIsSuffix(log, c.now - rate.duration);
    var log' := log + [c.now];
    forall i, j | 0 <= i && j == i + rate.requests && j < |log'| ensures log'[i] + rate.duration <= log'[j] {
      if j < |log| { assert log[i] + rate.duration <= log[j]; }
    }
  }

  /** The log after a request: one longer if it was allowed. */
  function Logged(rate: Rate, cell: Option<Entry>, log: seq<real>, c: Clock): seq<real> {
    if Allows(rate, cell, c) then log + [c.now] else log
  }

  /** Recording an allowed request, or refusing one, keeps the bucket in order. */
  lemma StoredKeeps(rate: Rate, cell: Option<Entry>, log: seq<real>, c: Clock)
    requires c.Ordered() && BucketOk(rate, cell, log, c.get)
    ensures BucketOk(rate, Stored(rate, cell, c), Logged(rate, cell, log, c), c.put)
  {
    if Allows(rate, cell, c) {
      RecordTracks(rate, cell, log, c);
      RecordSpaces(rate, cell, log, c);
      AscendingAppend(log, c.now);
    }
  }

  lemma AscendingAppend(log: seq<real>, x: real)
    requires Ascending(log) && (log != [] ==> log[|log| - 1] <= x)
    ensures Ascending(log + [x])
  {
  }

  // ----- How many requests an interval holds -----

  /** The recorded times in [from, to). */
  function Count(log: seq<real>, from: real, to: real): nat {
    if log == [] then 0
    else Count(log[..|log| - 1], from, to) + if from <= log[|log| - 1] < to then 1 else 0
  }

  lemma {:induction false} CountTail(log: seq<real>, from: real, to: real, k: nat)
    requires k <= |log| && forall i :: 0 <= i < k ==> log[i] < from
    ensures Count(log, from, to) <= |log| - k
  {
    if |log| > k {
      CountTail(log[..|log| - 1], from, to, k);
    } else if log != [] {
      CountTail(log[..|log| - 1], from, to, k - 1);
    }
  }

  /** A spaced log has at most `requests` entries in any half-open interval of length `duration`. */
  lemma {:induction false} IntervalBound(rate: Rate, log: seq<real>, from: real)
    requires rate.Valid() && Ascending(log) && Spaced(rate, log)
    ensures Count(log, from, from + rate.duration) <= rate.requests
  {
    if log != [] {
      var n := |log| - 1;
      var rest, x := log[..n], log[n];
      IntervalBound(rate, rest, from);
      if from <= x < from + rate.duration {
        var k: nat := if n >= rate.requests then n + 1 - rate.requests else 0;
        if rate.requests > 0 {
          forall i | 0 <= i < k ensures rest[i] < from {
            assert log[i] <= log[n - rate.requests] && log[n - rate.requests] + rate.duration <= log[n];
          }
          CountTail(rest, from, from + rate.duration, k);
        }
      }
    }
  }

  // ----- One bucket over a run: the cache against a perfect memory -----

  ghost predicate ClocksAdvance(clocks: seq<Clock>, time: real)
    decreases |clocks|
  {
    clocks == [] || (time <= clocks[0].get && clocks[0].Ordered() && ClocksAdvance(clocks[1..], clocks[0].put))
  }

  function LastTime(clocks: seq<Clock>, time: real): real {
    if clocks == [] then time else clocks[|clocks| - 1].put
  }

  /** The cached cell after a run of requests. */
  function CellAfter(rate: Rate, cell: Option<Entry>, clocks: seq<Clock>): Option<Entry>
    decreases |clocks|
  {
    if clocks == [] then cell else CellAfter(rate, Stored(rate, cell, clocks[0]), clocks[1..])
  }

  /** The rule with a perfect memory: allow while fewer than `requests` recorded requests are live. */
  predicate IdealAllows(rate: Rate, log: seq<real>, now: real) {
    |Live(log, now - rate.duration)| < rate.requests
  }

  function IdealLogged(rate: Rate, log: seq<real>, now: real): seq<real> {
    if IdealAllows(rate, log, now) then log + [now] else log
  }

  function IdealLog(rate: Rate, log: seq<real>, clocks: seq<Clock>): seq<real>
    decreases |clocks|
  {
    if clocks == [] then log else IdealLog(rate, IdealLogged(rate, log, clocks[0].now), clocks[1..])
  }

  /** One request keeps the cached cell in step with the perfect memory. */
  lemma StepInStep(rate: Rate, cell: Option<Entry>, log: seq<real>, c: Clock)
    requires c.Ordered() && BucketOk(rate, cell, log, c.get)
    ensures Allows(rate, cell, c) == IdealAllows(rate, log, c.now)
    ensures BucketOk(rate, Stored(rate, cell, c), IdealLogged(rate, log, c.now), c.put)
  {
    DecidesAlike(rate, cell, log, c);
    StoredKeeps(rate, cell, log, c);
  }

  lemma DecidesAlike(rate: Rate, cell: Option<Entry>, log: seq<real>, c: Clock)
    requires c.Ordered() && BucketOk(rate, cell, log, c.get)
    ensures Allows(rate, cell, c) == IdealAllows(rate, log, c.now)
    ensures Logged(rate, cell, log, c) == IdealLogged(rate, log, c.now)
  {
    KeptIsLive(rate, cell, log, c);
  }

  lemma BucketLater(rate: Rate, cell: Option<Entry>, log: seq<real>, time: real, later: real)
    requires BucketOk(rate, cell, log, time) && time <= later
    ensures BucketOk(rate, cell, log, later)
  {
  }

  lemma {:induction false} RunInStep(rate: Rate, cell: Option<Entry>, log: seq<real>, clocks: seq<Clock>, time: real)
    requires BucketOk(rate, cell, log, time) && ClocksAdvance(clocks, time)
    ensures BucketOk(rate, CellAfter(rate, cell, clocks), IdealLog(rate, log, clocks), LastTime(clocks, time))
    decreases |clocks|
  {
    if clocks != [] {
      var c, rest := clocks[0], clocks[1..];
      BucketLater(rate, cell, log, time, c.get);
      StepInStep(rate, cell, log, c);
      RunInStep(rate, Stored(rate, cell, c), IdealLogged(rate, log, c.now), rest, c.put);
      assert LastTime(clocks, time) == LastTime(rest, c.put);
    }
  }

  /**
    Cache expiry after `duration` never changes a decision: after any run the throttle decides like the perfect
    memory.
   */
  lemma {:induction false} ExpiryChangesNothing(rate: Rate, clocks: seq<Clock>, start: real, next: Clock)
    requires rate.Valid() && ClocksAdvance(clocks, start) && LastTime(clocks, start) <= next.get && next.Ordered()
    ensures Allows(rate, CellAfter(rate, None, clocks), next) == IdealAllows(rate, IdealLog(rate, [], clocks), next.now)
  {
    var cell, log := CellAfter(rate, None, clocks), IdealLog(rate, [], clocks);
    RunInStep(rate, None, [], clocks, start);
    BucketLater(rate, cell, log, LastTime(clocks, start), next.get);
    StepInStep(rate, cell, log, next);
  }

  /** The requests that the cached algorithm itself allows over a run. */
  function AllowedLog(rate: Rate, cell: Option<Entry>, log: seq<real>, clocks: seq<Clock>): seq<real>
    decreases |clocks|
  {
    if clocks == [] then log
    else AllowedLog(rate, Stored(rate, cell, clocks[0]), Logged(rate, cell, log, clocks[0]), clocks[1..])
  }

  /** They are the ones a perfect memory allows. */
  lemma {:induction false} AllowedIsIdeal(rate: Rate, cell: Option<Entry>, log: seq<real>, clocks: seq<Clock>,
                                          time: real)
    requires BucketOk(rate, cell, log, time) && ClocksAdvance(clocks, time)
    ensures AllowedLog(rate, cell, log, clocks) == IdealLog(rate, log, clocks)
    decreases |clocks|
  {
    if clocks != [] {
      var c, rest := clocks[0], clocks[1..];
      BucketLater(rate, cell, log, time, c.get);
      StepInStep(rate, cell, log, c);
      AllowedIsIdeal(rate, Stored(rate, cell, c), IdealLogged(rate, log, c.now), rest, c.put);
    }
  }

  /** In every run, every half-open interval of length `duration` holds at most `requests` allowed requests. */
  lemma {:induction false} BucketBound(rate: Rate, clocks: seq<Clock>, start: real, from: real)
    requires rate.Valid() && ClocksAdvance(clocks, start)
    ensures Count(AllowedLog(rate, None, [], clocks), from, from + rate.duration) <= rate.requests
  {
    AllowedIsIdeal(rate, None, [], clocks, start);
    RunInStep(rate, None, [], clocks, start);
    IntervalBound(rate, IdealLog(rate, [], clocks), from);
  }

  // ----- Exactly when a request is allowed -----

  /** Fewer than `requests` requests are recorded, or the newest but `requests` - 1 is at least `duration` old. */
  predicate HasRoom(rate: Rate, log: seq<real>, now: real) {
    var n := rate.requests;
    n > 0 && (|log| < n || log[|log| - n] + rate.duration <= now)
  }

  lemma {:induction false} AllowsIff(rate: Rate, cell: Option<Entry>, log: seq<real>, c: Clock)
    requires c.Ordered() && BucketOk(rate, cell, log, c.get)
    ensures Allows(rate, cell, c) <==> HasRoom(rate, log, c.now)
  {
    DecidesAlike(rate, cell, log, c);
    LiveIsSuffix(log, c.now - rate.duration);
    var m, n := |Live(log, c.now - rate.duration)|, rate.requests;
    if 0 < n <= m {
      assert Live(log, c.now - rate.duration)[n - 1] == log[|log| - n];
      LiveIsNew(log, c.now - rate.duration);
    }
  }

  lemma {:induction false} LiveIsNew(log: seq<real>, cutoff: real)
    ensures forall j :: 0 <= j < |Live(log, cutoff)| ==> Live(log, cutoff)[j] > cutoff
  {
    if log != [] && log[|log| - 1] > cutoff {
      LiveIsNew(log[..|log| - 1], cutoff);
    }
  }

  /** Over every run: the next request is allowed exactly when the requests allowed so far leave room. */
  lemma {:induction false} DecidedByAllowed(rate: Rate, clocks: seq<Clock>, start: real, next: Clock)
    requires rate.Valid() && ClocksAdvance(clocks, start) && LastTime(clocks, start) <= next.get && next.Ordered()
    ensures Allows(rate, CellAfter(rate, None, clocks), next)
            <==> HasRoom(rate, AllowedLog(rate, None, [], clocks), next.now)
  {
    var cell, log := CellAfter(rate, None, clocks), IdealLog(rate, [], clocks);
    AllowedIsIdeal(rate, None, [], clocks, start);
    RunInStep(rate, None, [], clocks, start);
    BucketLater(rate, cell, log, LastTime(clocks, start), next.get);
    AllowsIff(rate, cell, log, next);
  }
}
