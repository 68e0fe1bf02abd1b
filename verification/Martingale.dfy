/**
  The martingale stake calculator: a scan of the newest orders of one workflow node decides the next stake.
  Stakes are exact decimals; orders are listed newest first.
 */
module Martingale {
  import opened Options

  datatype OrderStatus =
    | Pending | Submitted | Queued | Approved | Created | Validated
    | Rejected | Failed | Cancelled | Expired
    | Executed

  datatype PositionStatus = Open | Closed

  datatype Position = Position(status: PositionStatus, profit: Option<real>)

  datatype Order = Order(status: OrderStatus, position: Option<Position>)

  datatype Refusal = UnresolvedOrder | PositionOpen | ProfitUnknown | MaxStepsReached | StakeTooHigh

  /** What one order means to the scan. */
  datatype Verdict = Blocks(refusal: Refusal) | Skips | Lost | Resets

  datatype Scan = Streak(losses: nat) | Stop(refusal: Refusal)

  datatype Decision = Stake(amount: real) | Refuse(refusal: Refusal)

  datatype Config = Config(baseStake: real, multiplier: real, maxSteps: nat, maxStake: real) {
    /** The accepted configurations. */
    predicate Valid() {
      baseStake > 0.0 && multiplier > 1.0 && 1 <= maxSteps <= 20 && baseStake <= maxStake
    }
  }

  function Judge(o: Order): Verdict {
    match o.status
    case Pending | Submitted | Queued | Approved | Created | Validated => Blocks(UnresolvedOrder)
    case Rejected | Failed | Cancelled | Expired => Skips
    case Executed =>
      if o.position.None? || o.position.value.status != Closed then Blocks(PositionOpen)
      else if o.position.value.profit.None? then Blocks(ProfitUnknown)
      else if o.position.value.profit.value < 0.0 then Lost
      else Resets
  }

  /** Count losses from the newest order back to the last one that was not lost. */
  function ScanFrom(orders: seq<Order>, maxSteps: nat, streak: nat): Scan {
    if orders == [] then Streak(streak)
    else
      match Judge(orders[0])
      case Blocks(refusal) => Stop(refusal)
      case Skips => ScanFrom(orders[1..], maxSteps, streak)
      case Lost => if streak + 1 >= maxSteps then Stop(MaxStepsReached) else ScanFrom(orders[1..], maxSteps, streak + 1)
      case Resets => Streak(streak)
  }

  function Window(orders: seq<Order>, maxSteps: nat): seq<Order> {
    if |orders| <= maxSteps + 1 then orders else orders[..maxSteps + 1]
  }

  function Pow(m: real, n: nat): real {
    if n == 0 then 1.0 else m * Pow(m, n - 1)
  }

  function Price(c: Config, scan: Scan): Decision {
    match scan
    case Stop(refusal) => Refuse(refusal)
    case Streak(n) =>
      var next := c.baseStake * Pow(c.multiplier, n);
      if next > c.maxStake then Refuse(StakeTooHigh) else Stake(next)
  }

  function Decide(c: Config, orders: seq<Order>): Decision {
    Price(c, ScanFrom(Window(orders, c.maxSteps), c.maxSteps, 0))
  }

  /** The loop over the newest `maxSteps` + 1 orders. */
  method MartingaleStake(c: Config, orders: seq<Order>) returns (d: Decision)
    ensures d == Decide(c, orders)
  {
    var previous := Window(orders, c.maxSteps);
    var streak: nat := 0;
    var i := 0;
    while i < |previous|
      invariant 0 <= i <= |previous|
      invariant ScanFrom(previous, c.maxSteps, 0) == ScanFrom(previous[i..], c.maxSteps, streak)
      decreases |previous| - i
    {
      assert previous[i..][0] == previous[i] && previous[i..][1..] == previous[i + 1..];
      match Judge(previous[i]) {
        case Blocks(refusal) => return Refuse(refusal);
        case Skips =>
        case Lost =>
          streak := streak + 1;
          if streak >= c.maxSteps {
            return Refuse(MaxStepsReached);
          }
        case Resets => break;
      }
      i := i + 1;
    }
    var next := c.baseStake * Pow(c.multiplier, streak);
    if next > c.maxStake {
      return Refuse(StakeTooHigh);
    }
    return Stake(next);
  }

  // ----- The window against the full history -----

  function SkipCount(orders: seq<Order>): nat {
    if orders == [] then 0 else (if Judge(orders[0]).Skips? then 1 else 0) + SkipCount(orders[1..])
  }

  /** Every order is a loss or was never executed, so the scan runs off the end unless it stops by count. */
  ghost predicate Undecided(orders: seq<Order>) {
    forall i :: 0 <= i < |orders| ==> Judge(orders[i]).Skips? || Judge(orders[i]).Lost?
  }

  /** A scan that meets a blocking or resetting order, or enough losses, never looks further. */
  lemma {:induction false} ScanEndsInside(orders: seq<Order>, older: seq<Order>, maxSteps: nat, streak: nat)
    requires !Undecided(orders) || (streak + |orders| - SkipCount(orders) >= maxSteps && |orders| > SkipCount(orders))
    ensures ScanFrom(orders + older, maxSteps, streak) == ScanFrom(orders, maxSteps, streak)
  {
    if orders != [] {
      var rest := orders[1..];
      assert (orders + older)[1..] == rest + older;
      var v := Judge(orders[0]);
      if v.Skips? || (v.Lost? && streak + 1 < maxSteps) {
        if !Undecided(orders) {
          var i :| 0 <= i < |orders| && !Judge(orders[i]).Skips? && !Judge(orders[i]).Lost?;
          assert rest[i - 1] == orders[i];
        }
        ScanEndsInside(rest, older, maxSteps, if v.Lost? then streak + 1 else streak);
      }
    }
  }

  lemma {:induction false} SkipCountBound(orders: seq<Order>)
    ensures SkipCount(orders) <= |orders|
  {
    if orders != [] { SkipCountBound(orders[1..]); }
  }

  /** Off the end: the scan has counted the losses and goes on into whatever is older. */
  lemma {:induction false} ScanRunsOff(orders: seq<Order>, older: seq<Order>, maxSteps: nat, streak: nat)
    requires Undecided(orders) && streak + |orders| - SkipCount(orders) < maxSteps
    ensures SkipCount(orders) <= |orders|
    ensures ScanFrom(orders + older, maxSteps, streak)
            == ScanFrom(older, maxSteps, streak + |orders| - SkipCount(orders))
  {
    SkipCountBound(orders);
    if orders == [] {
      assert orders + older == older;
    } else {
      assert (orders + older)[1..] == orders[1..] + older;
      SkipCountBound(orders[1..]);
      ScanRunsOff(orders[1..], older, maxSteps, if Judge(orders[0]).Lost? then streak + 1 else streak);
    }
  }

  /**
    A full window settles the matter, whatever the older orders are, exactly unless all of it is losses and
    skipped orders, two or more of them skipped.
   */
  lemma {:induction false} WindowDecidesIff(window: seq<Order>, maxSteps: nat)
    requires 1 <= maxSteps && |window| == maxSteps + 1
    ensures (forall older: seq<Order> :: ScanFrom(window + older, maxSteps, 0) == ScanFrom(window, maxSteps, 0))
            <==> !(Undecided(window) && SkipCount(window) >= 2)
  {
    if Undecided(window) && SkipCount(window) >= 2 {
      var older := [Order(Pending, None)];
      ScanRunsOff(window, older, maxSteps, 0);
      ScanRunsOff(window, [], maxSteps, 0);
      assert window + [] == window;
      assert ScanFrom(window + older, maxSteps, 0) != ScanFrom(window, maxSteps, 0);
    } else {
      forall older: seq<Order> ensures ScanFrom(window + older, maxSteps, 0) == ScanFrom(window, maxSteps, 0) {
        ScanEndsInside(window, older, maxSteps, 0);
      }
    }
  }

  /** With at most one skipped order in the window, scanning the window is scanning the whole history. */
  lemma {:induction false} WindowIsEnough(orders: seq<Order>, maxSteps: nat)
    requires 1 <= maxSteps && SkipCount(Window(orders, maxSteps)) <= 1
    ensures ScanFrom(Window(orders, maxSteps), maxSteps, 0) == ScanFrom(orders, maxSteps, 0)
  {
    if |orders| > maxSteps + 1 {
      var w := Window(orders, maxSteps);
      assert orders == w + orders[maxSteps + 1..];
      ScanEndsInside(w, orders[maxSteps + 1..], maxSteps, 0);
    }
  }

  // ----- What the newest order means -----

  /** An order in one of these states has not left the platform for good. */
  predicate Outstanding(o: Order) {
    o.status == Pending || o.status == Submitted || o.status == Queued || o.status == Approved || o.status == Created
    || o.status == Validated
  }

  /** An order that will never be executed. */
  predicate NeverExecuted(o: Order) {
    o.status == Rejected || o.status == Failed || o.status == Cancelled || o.status == Expired
  }

  predicate SettledWith(o: Order, profit: real) {
    !Outstanding(o) && !NeverExecuted(o) && o.position == Some(Position(Closed, Some(profit)))
  }

  /**
    An outstanding order and one whose result is not known stop the node; one that will never be executed counts for
    nothing; a loss counts one more; and anything else, a result of zero included, starts over.
   */
  lemma NewestOrderCounts(o: Order, rest: seq<Order>, maxSteps: nat, streak: nat)
    ensures var scan := ScanFrom([o] + rest, maxSteps, streak);
      && (Outstanding(o) ==> scan == Stop(UnresolvedOrder))
      && (NeverExecuted(o) ==> scan == ScanFrom(rest, maxSteps, streak))
      && (!Outstanding(o) && !NeverExecuted(o) && (o.position.None? || o.position.value.status != Closed) ==>
            scan == Stop(PositionOpen))
      && (!Outstanding(o) && !NeverExecuted(o) && o.position == Some(Position(Closed, None)) ==>
            scan == Stop(ProfitUnknown))
    ensures forall profit :: SettledWith(o, profit) ==>
              ScanFrom([o] + rest, maxSteps, streak)
              == if profit >= 0.0 then Streak(streak)
                 else if streak + 1 >= maxSteps then Stop(MaxStepsReached)
                 else ScanFrom(rest, maxSteps, streak + 1)
  {
    assert ([o] + rest)[1..] == rest;
  }
}
