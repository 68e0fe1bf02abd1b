/**
  One process in front of a shared Redis: the circuit breaker routes each request to Redis or to the
  process's own fallback cache.  Redis may fail at any request, before or after it stores the history.
  The model follows one cache key; requests of the process for other keys only move the breaker.
 */
module ThrottleBreaker {
  import opened Options
  import opened SlidingWindow

  const COOLDOWN: real := 120.0

  /** How the shared cache behaves for one request; a failed write may or may not have been stored. */
  datatype Fault = Healthy | FailsOnGet | FailsOnSet(stored: bool)

  datatype Arrival =
    | Mine(monotonic: real, failedAt: real, first: Clock, second: Clock, fault: Fault)
    | OtherKey(monotonic: real, failedAt: real, raised: bool)
    | OtherProcess(clock: Clock, fault: Fault)
    | BreakerMoves(until: real)   // an overlapping request of another thread writes the deadline

  /**
    `redisLog` records every stored request, `mine` this process's passes through Redis, `local` its fallback passes.
   */
  datatype Process = Process(
    redis: Option<Entry>, fallback: Option<Entry>, until: real,
    redisLog: seq<real>, mine: seq<real>, local: seq<real>, time: real)

  function Boot(): Process {
    Process(None, None, 0.0, [], [], [], 0.0)
  }

  // ----- One request -----

  /** What the request does to Redis. */
  function TryRedis(rate: Rate, s: Process, c: Clock, fault: Fault): Process {
    var allowed := Allows(rate, s.redis, c);
    if !allowed || fault == FailsOnGet || fault == FailsOnSet(false) then s
    else s.(redis := Recorded(rate, s.redis, c), redisLog := s.redisLog + [c.now])
  }

  /** A full history is refused without a write, so a write failure cannot show then. */
  predicate Raises(rate: Rate, s: Process, c: Clock, fault: Fault) {
    fault == FailsOnGet || (fault.FailsOnSet? && Allows(rate, s.redis, c))
  }

  function UseFallback(rate: Rate, s: Process, c: Clock): Process {
    if Allows(rate, s.fallback, c)
    then s.(fallback := Recorded(rate, s.fallback, c), local := s.local + [c.now])
    else s
  }

  function Serve(rate: Rate, s: Process, a: Arrival): Process {
    match a
    case BreakerMoves(until) => s.(until := until)
    case OtherKey(monotonic, failedAt, raised) =>
      if monotonic < s.until then s else s.(until := if raised then failedAt + COOLDOWN else 0.0)
    case OtherProcess(c, fault) => TryRedis(rate, s, c, fault).(time := c.put)
    case Mine(monotonic, failedAt, first, second, fault) =>
      if monotonic < s.until then UseFallback(rate, s, first).(time := first.put)
      else if Raises(rate, s, first, fault) then
        UseFallback(rate, TryRedis(rate, s, first, fault).(until := failedAt + COOLDOWN), second).(time := second.put)
      else
        var t := TryRedis(rate, s, first, fault);
        t.(until := 0.0, mine := if Allows(rate, s.redis, first) then s.mine + [first.now] else s.mine,
           time := first.put)
  }

  /** The throttle object: both caches and the process-wide breaker deadline. */
  class ResilientThrottle {
    const rate: Rate
    const redis: Cache
    const fallback: Cache
    var unavailableUntil: real

    constructor (rate: Rate, redis: Cache, fallback: Cache)
      ensures this.rate == rate && this.redis == redis && this.fallback == fallback && unavailableUntil == 0.0
    {
      this.rate, this.redis, this.fallback, unavailableUntil := rate, redis, fallback, 0.0;
    }

    /** The state of one key, with empty logs. */
    ghost function View(key: string): Process
      reads this, redis, fallback
    {
      Process(redis.Cell(key), fallback.Cell(key), unavailableUntil, [], [], [], 0.0)
    }

    /** The framework's own pass over Redis, which raises when Redis fails. */
    method AllowWithRedis(key: string, c: Clock, fault: Fault) returns (raised: bool, allowed: bool)
      modifies redis
      ensures raised == Raises(rate, old(View(key)), c, fault)
      ensures !raised ==> allowed == Allows(rate, old(redis.Cell(key)), c)
      ensures redis.Cell(key) == TryRedis(rate, old(View(key)), c, fault).redis
    {
      if fault == FailsOnGet {
        return true, false;
      }
      if fault == FailsOnSet(false) {
        allowed := Allows(rate, redis.Cell(key), c);
        return allowed, allowed;
      }
      allowed := AllowWithCache(rate, redis, Some(key), c);
      return fault == FailsOnSet(true) && allowed, allowed;
    }

    method AllowRequest(key: string, monotonic: real, failedAt: real, first: Clock, second: Clock, fault: Fault)
      returns (allowed: bool)
      requires redis != fallback
      modifies this, redis, fallback
      ensures var t := Serve(rate, old(View(key)), Mine(monotonic, failedAt, first, second, fault));
        && redis.Cell(key) == t.redis && fallback.Cell(key) == t.fallback && unavailableUntil == t.until
        && allowed == (t.mine + t.local != [])
    {
      if monotonic < unavailableUntil {
        allowed := AllowWithCache(rate, fallback, Some(key), first);
        return;
      }
      var raised;
      raised, allowed := AllowWithRedis(key, first, fault);
      if !raised {
        unavailableUntil := 0.0;
        return;
      }
      unavailableUntil := failedAt + COOLDOWN;
      allowed := AllowWithCache(rate, fallback, Some(key), second);
    }
  }

  predicate Timely(s: Process, a: Arrival) {
    match a
    case BreakerMoves(_) => true
    case OtherKey(_, _, _) => true
    case OtherProcess(c, _) => s.time <= c.get && c.Ordered()
    case Mine(_, _, first, second, _) =>
      s.time <= first.get && first.Ordered() && first.put <= second.get && second.Ordered()
  }

  ghost predicate IsRun(rate: Rate, s: Process, arrivals: seq<Arrival>)
    decreases |arrivals|
  {
    arrivals == [] || (Timely(s, arrivals[0]) && IsRun(rate, Serve(rate, s, arrivals[0]), arrivals[1..]))
  }

  function After(rate: Rate, s: Process, arrivals: seq<Arrival>): Process
    decreases |arrivals|
  {
    if arrivals == [] then s else After(rate, Serve(rate, s, arrivals[0]), arrivals[1..])
  }

  // ----- The invariant -----

  /** Whatever interval is looked at, `part` has no more entries in it than `whole`. */
  ghost predicate Within(part: seq<real>, whole: seq<real>) {
    forall from, to :: Count(part, from, to) <= Count(whole, from, to)
  }

  ghost predicate Inv(rate: Rate, s: Process) {
    && BucketOk(rate, s.redis, s.redisLog, s.time)
    && BucketOk(rate, s.fallback, s.local, s.time)
    && Within(s.mine, s.redisLog)
  }

  lemma TimePasses(rate: Rate, s: Process, time: real)
    requires Inv(rate, s) && s.time <= time
    ensures Inv(rate, s.(time := time))
  {
    BucketLater(rate, s.redis, s.redisLog, s.time, time);
    BucketLater(rate, s.fallback, s.local, s.time, time);
  }

  lemma TryRedisKeeps(rate: Rate, s: Process, c: Clock, fault: Fault)
    requires Inv(rate, s) && s.time <= c.get && c.Ordered()
    ensures Inv(rate, TryRedis(rate, s, c, fault).(time := c.put))
    ensures Allows(rate, s.redis, c) && !Raises(rate, s, c, fault) ==>
              Inv(rate, TryRedis(rate, s, c, fault).(time := c.put, mine := s.mine + [c.now]))
  {
    BucketLater(rate, s.redis, s.redisLog, s.time, c.get);
    StoredKeeps(rate, s.redis, s.redisLog, c);
    BucketLater(rate, s.fallback, s.local, s.time, c.put);
    BucketLater(rate, s.redis, s.redisLog, s.time, c.put);
  }

  lemma UseFallbackKeeps(rate: Rate, s: Process, c: Clock)
    requires Inv(rate, s) && s.time <= c.get && c.Ordered()
    ensures Inv(rate, UseFallback(rate, s, c).(time := c.put))
  {
    BucketLater(rate, s.fallback, s.local, s.time, c.get);
    StoredKeeps(rate, s.fallback, s.local, c);
    BucketLater(rate, s.redis, s.redisLog, s.time, c.put);
  }

  lemma ServeKeeps(rate: Rate, s: Process, a: Arrival)
    requires Inv(rate, s) && Timely(s, a)
    ensures Inv(rate, Serve(rate, s, a))
  {
    match a
    case BreakerMoves(_) =>
    case OtherKey(_, _, _) =>
    case OtherProcess(c, fault) => TryRedisKeeps(rate, s, c, fault);
    case Mine(monotonic, failedAt, first, second, fault) =>
      if monotonic < s.until {
        UseFallbackKeeps(rate, s, first);
      } else {
        TryRedisKeeps(rate, s, first, fault);
        if Raises(rate, s, first, fault) {
          UseFallbackKeeps(rate, TryRedis(rate, s, first, fault).(until := failedAt + COOLDOWN, time := first.put),
                           second);
        }
      }
  }

  lemma {:induction false} RunKeeps(rate: Rate, s: Process, arrivals: seq<Arrival>)
    requires Inv(rate, s) && IsRun(rate, s, arrivals)
    ensures Inv(rate, After(rate, s, arrivals))
    decreases |arrivals|
  {
    if arrivals != [] {
      ServeKeeps(rate, s, arrivals[0]);
      RunKeeps(rate, Serve(rate, s, arrivals[0]), arrivals[1..]);
    }
  }

  // ----- Main results -----

  /** The requests stored in Redis, and the passes of the process, within one duration. */
  ghost predicate Bounded(rate: Rate, s: Process, from: real) {
    && Count(s.redisLog, from, from + rate.duration) <= rate.requests
    && Count(s.mine, from, from + rate.duration) + Count(s.local, from, from + rate.duration) <= 2 * rate.requests
  }

  /**
    Under any pattern of Redis failures one process passes at most 2 * `requests` in any interval of length
    `duration`.
   */
  lemma {:induction false} ProcessBound(rate: Rate, arrivals: seq<Arrival>, from: real)
    requires rate.Valid() && IsRun(rate, Boot(), arrivals)
    ensures Bounded(rate, After(rate, Boot(), arrivals), from)
  {
    var s := After(rate, Boot(), arrivals);
    RunKeeps(rate, Boot(), arrivals);
    IntervalBound(rate, s.redisLog, from);
    IntervalBound(rate, s.local, from);
    assert Count(s.mine, from, from + rate.duration) <= Count(s.redisLog, from, from + rate.duration);
  }

  /** The factor two is reached: one pass through Redis, then a failure and one pass through the fallback. */
  lemma ProcessBoundIsReached()
    ensures var rate, c1, c2, c3 := Rate(1, 60.0), Clock(1.0, 1.0, 1.0), Clock(2.0, 2.0, 2.0), Clock(3.0, 3.0, 3.0);
      var s := After(rate, Boot(), [Mine(1.0, 1.0, c1, c1, Healthy), Mine(2.0, 2.0, c2, c3, FailsOnGet)]);
      s.mine == [1.0] && s.local == [3.0]
  {
    var rate, c1, c2, c3 := Rate(1, 60.0), Clock(1.0, 1.0, 1.0), Clock(2.0, 2.0, 2.0), Clock(3.0, 3.0, 3.0);
    var a, b := Mine(1.0, 1.0, c1, c1, Healthy), Mine(2.0, 2.0, c2, c3, FailsOnGet);
    var s1 := Serve(rate, Boot(), a);
    var s2 := Serve(rate, s1, b);
    assert s1.mine == [1.0] && s1.until == 0.0;
    assert s2.mine == [1.0] && s2.local == [3.0];
    assert [a, b][1..] == [b] && [b][1..] == [];
    assert After(rate, s2, []) == s2;
    assert After(rate, s1, [b]) == After(rate, s2, [b][1..]);
    assert After(rate, Boot(), [a, b]) == After(rate, s1, [a, b][1..]);
  }

  // ----- The breaker -----

  /** The arrival waits for Redis, and Redis fails. */
  predicate Fails(rate: Rate, s: Process, a: Arrival) {
    match a
    case Mine(monotonic, _, first, _, fault) => monotonic >= s.until && Raises(rate, s, first, fault)
    case OtherKey(monotonic, _, raised) => monotonic >= s.until && raised
    case _ => false
  }

  /** The process's monotonic clock has been read in order: one request after another, none overlapping. */
  ghost predicate Serial(rate: Rate, s: Process, arrivals: seq<Arrival>, clock: real)
    decreases |arrivals|
  {
    arrivals == []
    || match arrivals[0]
       case BreakerMoves(_) => false
       case OtherProcess(_, _) => Serial(rate, Serve(rate, s, arrivals[0]), arrivals[1..], clock)
       case a =>
         && clock <= a.monotonic && (Fails(rate, s, a) ==> a.monotonic <= a.failedAt)
         && Serial(rate, Serve(rate, s, a), arrivals[1..], if Fails(rate, s, a) then a.failedAt else a.monotonic)
  }

  /** The moments at which a request of the process waited for Redis and Redis failed. */
  function Failures(rate: Rate, s: Process, arrivals: seq<Arrival>): seq<real>
    decreases |arrivals|
  {
    if arrivals == [] then []
    else
      var a := arrivals[0];
      (if Fails(rate, s, a) then [a.failedAt] else []) + Failures(rate, Serve(rate, s, a), arrivals[1..])
  }

  /** While the breaker is open nothing reaches Redis, so the first failure from now on comes after it closes. */
  lemma {:induction false} FailuresAfter(rate: Rate, s: Process, arrivals: seq<Arrival>, clock: real, bound: real)
    requires Serial(rate, s, arrivals, clock) && (bound <= s.until || bound <= clock)
    ensures forall i :: 0 <= i < |Failures(rate, s, arrivals)| ==> bound <= Failures(rate, s, arrivals)[i]
    decreases |arrivals|
  {
    if arrivals != [] {
      var a, rest := arrivals[0], arrivals[1..];
      var t := Serve(rate, s, a);
      if a.OtherProcess? {
        FailuresAfter(rate, t, rest, clock, bound);
      } else {
        FailuresAfter(rate, t, rest, if Fails(rate, s, a) then a.failedAt else a.monotonic, bound);
      }
    }
  }

  /** Over every serial run of a process, two waits on a failing Redis are at least 120 seconds apart. */
  lemma {:induction false} FailuresAreSpaced(rate: Rate, s: Process, arrivals: seq<Arrival>, clock: real)
    requires Serial(rate, s, arrivals, clock)
    ensures forall i, j :: 0 <= i < j < |Failures(rate, s, arrivals)| ==>
              Failures(rate, s, arrivals)[i] + 120.0 <= Failures(rate, s, arrivals)[j]
    decreases |arrivals|
  {
    if arrivals != [] {
      var a, rest := arrivals[0], arrivals[1..];
      var t := Serve(rate, s, a);
      if a.OtherProcess? {
        FailuresAreSpaced(rate, t, rest, clock);
      } else if Fails(rate, s, a) {
        FailuresAreSpaced(rate, t, rest, a.failedAt);
        FailuresAfter(rate, t, rest, a.failedAt, a.failedAt + 120.0);
        assert Failures(rate, s, arrivals) == [a.failedAt] + Failures(rate, t, rest);
      } else {
        FailuresAreSpaced(rate, t, rest, a.monotonic);
      }
    }
  }

  /** Nothing closes the breaker before its deadline. */
  lemma {:induction false} OpenUntil(rate: Rate, s: Process, arrivals: seq<Arrival>, clock: real, last: Arrival)
    requires last.Mine? && Serial(rate, s, arrivals + [last], clock) && last.monotonic < s.until
    ensures After(rate, s, arrivals).until == s.until
    decreases |arrivals|
  {
    if arrivals != [] {
      var a, rest := arrivals[0], arrivals[1..];
      var t := Serve(rate, s, a);
      assert (arrivals + [last])[0] == a && (arrivals + [last])[1..] == rest + [last];
      if a.OtherProcess? {
        OpenUntil(rate, t, rest, clock, last);
      } else {
        var next := if Fails(rate, s, a) then a.failedAt else a.monotonic;
        LastIsLater(rate, t, rest, next, last);
        OpenUntil(rate, t, rest, next, last);
      }
    }
  }

  lemma {:induction false} LastIsLater(rate: Rate, s: Process, arrivals: seq<Arrival>, clock: real, last: Arrival)
    requires last.Mine? && Serial(rate, s, arrivals + [last], clock)
    ensures clock <= last.monotonic
    decreases |arrivals|
  {
    if arrivals == [] {
      assert arrivals + [last] == [last];
    } else {
      var a, rest := arrivals[0], arrivals[1..];
      assert (arrivals + [last])[0] == a && (arrivals + [last])[1..] == rest + [last];
      var next := if a.OtherProcess? then clock else if Fails(rate, s, a) then a.failedAt else a.monotonic;
      LastIsLater(rate, Serve(rate, s, a), rest, next, last);
    }
  }

  // ----- Every answer -----

  /** Redis is as it was, and the fallback has decided by the passes it recorded. */
  ghost predicate AnsweredByFallback(rate: Rate, s: Process, t: Process, now: real) {
    && t.redis == s.redis && t.redisLog == s.redisLog && t.mine == s.mine
    && t.local == if HasRoom(rate, s.local, now) then s.local + [now] else s.local
  }

  /** Redis has decided by the requests recorded in it, and the fallback is as it was. */
  ghost predicate AnsweredByRedis(rate: Rate, s: Process, t: Process, now: real) {
    && t.fallback == s.fallback && t.local == s.local && t.until == 0.0
    && t.redisLog == (if HasRoom(rate, s.redisLog, now) then s.redisLog + [now] else s.redisLog)
    && t.mine == if HasRoom(rate, s.redisLog, now) then s.mine + [now] else s.mine
  }

  /** Redis has failed and opened the breaker; it may have stored the request, and the fallback has decided. */
  ghost predicate AnsweredAfterFailure(rate: Rate, s: Process, t: Process, now: real, later: real, stored: bool,
                                       failedAt: real)
  {
    && t.until == failedAt + 120.0 && t.mine == s.mine
    && t.redisLog == (if stored then s.redisLog + [now] else s.redisLog)
    && t.local == if HasRoom(rate, s.local, later) then s.local + [later] else s.local
  }

  ghost predicate Answered(rate: Rate, s: Process, t: Process, a: Arrival)
    requires a.Mine?
  {
    var now, later, room := a.first.now, a.second.now, HasRoom(rate, s.redisLog, a.first.now);
    if a.monotonic < s.until then AnsweredByFallback(rate, s, t, now)
    else if a.fault == FailsOnGet then AnsweredAfterFailure(rate, s, t, now, later, false, a.failedAt)
    else if a.fault == Healthy || !room then AnsweredByRedis(rate, s, t, now)
    else AnsweredAfterFailure(rate, s, t, now, later, a.fault.stored, a.failedAt)
  }

  lemma {:induction false} ServeAnswers(rate: Rate, s: Process, a: Arrival)
    requires Inv(rate, s) && Timely(s, a) && a.Mine?
    ensures Answered(rate, s, Serve(rate, s, a), a)
  {
    var first, second := a.first, a.second;
    BucketLater(rate, s.redis, s.redisLog, s.time, first.get);
    AllowsIff(rate, s.redis, s.redisLog, first);
    BucketLater(rate, s.fallback, s.local, s.time, first.get);
    AllowsIff(rate, s.fallback, s.local, first);
    BucketLater(rate, s.fallback, s.local, first.get, second.get);
    AllowsIff(rate, s.fallback, s.local, second);
  }

  /** Over every run: who answers a request, and what, as far as the requests recorded so far decide it. */
  lemma {:induction false} EveryAnswer(rate: Rate, arrivals: seq<Arrival>, a: Arrival)
    requires rate.Valid() && IsRun(rate, Boot(), arrivals) && Timely(After(rate, Boot(), arrivals), a) && a.Mine?
    ensures var s := After(rate, Boot(), arrivals); Answered(rate, s, Serve(rate, s, a), a)
  {
    RunKeeps(rate, Boot(), arrivals);
    ServeAnswers(rate, After(rate, Boot(), arrivals), a);
  }

  lemma {:induction false} RunSplits(rate: Rate, s: Process, before: seq<Arrival>, after: seq<Arrival>)
    ensures After(rate, s, before + after) == After(rate, After(rate, s, before), after)
    decreases |before|
  {
    if before == [] {
      assert before + after == after;
    } else {
      assert (before + after)[0] == before[0] && (before + after)[1..] == before[1..] + after;
      RunSplits(rate, Serve(rate, s, before[0]), before[1..], after);
    }
  }

  /**
    Over every run that is serial from a failure on: a request within 120 seconds of it leaves Redis alone and gets
    the fallback's answer.
   */
  lemma {:induction false} FallbackDuringCooldown(rate: Rate, before: seq<Arrival>, failure: Arrival,
                                                  between: seq<Arrival>, a: Arrival, clock: real)
    requires rate.Valid() && IsRun(rate, Boot(), before + ([failure] + between))
    requires Timely(After(rate, Boot(), before + ([failure] + between)), a) && a.Mine?
    requires Fails(rate, After(rate, Boot(), before), failure)
    requires Serial(rate, After(rate, Boot(), before), [failure] + (between + [a]), clock)
    requires a.monotonic < failure.failedAt + 120.0
    ensures var s := After(rate, Boot(), before + ([failure] + between));
      AnsweredByFallback(rate, s, Serve(rate, s, a), a.first.now)
  {
    var s := After(rate, Boot(), before);
    var t := Serve(rate, s, failure);
    RunSplits(rate, Boot(), before, [failure] + between);
    assert ([failure] + between)[1..] == between && ([failure] + (between + [a]))[1..] == between + [a];
    assert After(rate, s, [failure] + between) == After(rate, t, between);
    OpenUntil(rate, t, between, failure.failedAt, a);
    EveryAnswer(rate, before + ([failure] + between), a);
  }
}
