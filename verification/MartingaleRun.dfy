/**
  Serial runs of a martingale node: a trigger prices and places an order unless it is refused, and the
  newest order later fills and settles, or is voided.  A trigger while an order is unresolved is refused
  by the calculator itself.
 */
module MartingaleRun {
  import opened Martingale
  import opened Options
  import opened Reals

  datatype Trade = Trade(order: Order, stake: real)

  datatype Event = Trigger | Fill | Settle(profit: real) | Void

  function Orders(history: seq<Trade>): seq<Order> {
    if history == [] then [] else [history[0].order] + Orders(history[1..])
  }

  predicate Unresolved(t: Trade) {
    Judge(t.order).Blocks?
  }

  function Place(c: Config, history: seq<Trade>): seq<Trade> {
    match Decide(c, Orders(history))
    case Refuse(_) => history
    case Stake(amount) => [Trade(Order(Submitted, None), amount)] + history
  }

  /** A settlement loses at most the stake. */
  function Next(c: Config, history: seq<Trade>, e: Event): seq<Trade> {
    match e
    case Trigger => Place(c, history)
    case Fill =>
      if history != [] && Unresolved(history[0])
      then [history[0].(order := Order(Executed, Some(Position(Open, None))))] + history[1..] else history
    case Settle(profit) =>
      if history != [] && Unresolved(history[0]) && -history[0].stake <= profit
      then [history[0].(order := Order(Executed, Some(Position(Closed, Some(profit)))))] + history[1..] else history
    case Void =>
      if history != [] && Unresolved(history[0])
      then [history[0].(order := Order(Rejected, None))] + history[1..] else history
  }

  function After(c: Config, history: seq<Trade>, events: seq<Event>): seq<Trade>
    decreases |events|
  {
    if events == [] then history else After(c, Next(c, history, events[0]), events[1..])
  }

  // ----- The current losing streak -----

  /** The lost trades since the last one that was not lost, oldest first. */
  function LosingStreak(history: seq<Trade>): seq<Trade> {
    if history == [] then []
    else
      match Judge(history[0].order)
      case Resets => []
      case Lost => LosingStreak(history[1..]) + [history[0]]
      case _ => LosingStreak(history[1..])
  }

  function Loss(t: Trade): real {
    if Judge(t.order).Lost? then -t.order.position.value.profit.value else 0.0
  }

  function TotalLoss(trades: seq<Trade>): real {
    if trades == [] then 0.0 else TotalLoss(trades[..|trades| - 1]) + Loss(trades[|trades| - 1])
  }

  ghost predicate Resolved(history: seq<Trade>) {
    forall i :: 0 <= i < |history| ==> !Unresolved(history[i])
  }

  /** The n-th stake of a progression: base, base * m, base * m^2, ... */
  function Ladder(c: Config, n: nat): real {
    if n == 0 then c.baseStake else c.multiplier * Ladder(c, n - 1)
  }

  /** One lost rung: the stake is the rung's, within the limit, and no more than the stake was lost. */
  ghost predicate RungOk(c: Config, t: Trade, n: nat) {
    t.stake == Ladder(c, n) && t.stake <= c.maxStake && Judge(t.order).Lost? && Loss(t) <= t.stake
  }

  ghost predicate StreakOk(c: Config, streak: seq<Trade>) {
    |streak| <= c.maxSteps && forall i :: 0 <= i < |streak| ==> RungOk(c, streak[i], i)
  }

  /** The next stake of an ongoing progression. */
  ghost predicate NextStakeOk(c: Config, streak: seq<Trade>, stake: real) {
    |streak| < c.maxSteps && stake == Ladder(c, |streak|) && stake <= c.maxStake
  }

  ghost predicate Inv(c: Config, history: seq<Trade>) {
    && c.Valid()
    && StreakOk(c, LosingStreak(history))
    && (history != [] ==>
          && Resolved(history[1..])
          && (Unresolved(history[0]) ==> NextStakeOk(c, LosingStreak(history[1..]), history[0].stake)))
  }

  /** On resolved orders the full scan counts exactly the losing streak. */
  lemma {:induction false} ScanCountsStreak(history: seq<Trade>, maxSteps: nat, streak: nat)
    requires Resolved(history) && streak < maxSteps
    ensures ScanFrom(Orders(history), maxSteps, streak)
            == if streak + |LosingStreak(history)| >= maxSteps then Stop(MaxStepsReached)
               else Streak(streak + |LosingStreak(history)|)
  {
    if history != [] {
      var rest := history[1..];
      assert !Unresolved(history[0]);
      assert Resolved(rest) by {
        forall i | 0 <= i < |rest| ensures !Unresolved(rest[i]) { assert rest[i] == history[i + 1]; }
      }
      assert Orders(history)[0] == history[0].order && Orders(history)[1..] == Orders(rest);
      match Judge(history[0].order)
      case Resets =>
      case Skips => ScanCountsStreak(rest, maxSteps, streak);
      case Lost => if streak + 1 < maxSteps { ScanCountsStreak(rest, maxSteps, streak + 1); }
    }
  }

  lemma BlockedTrigger(c: Config, history: seq<Trade>)
    requires history != [] && Unresolved(history[0])
    ensures Place(c, history) == history
  {
    var orders := Orders(history);
    assert orders[0] == history[0].order && Window(orders, c.maxSteps)[0] == orders[0];
  }

  lemma Regroup(base: real, m: real, p: real)
    ensures m * (base * p) == base * (m * p)
  {
  }

  lemma {:induction false} LadderIsPower(c: Config, n: nat)
    ensures Ladder(c, n) == c.baseStake * Pow(c.multiplier, n)
  {
    if n > 0 {
      LadderIsPower(c, n - 1);
      Regroup(c.baseStake, c.multiplier, Pow(c.multiplier, n - 1));
    }
  }

  lemma {:induction false} PriceOfStreak(c: Config, n: nat)
    ensures Price(c, Streak(n)) == if Ladder(c, n) > c.maxStake then Refuse(StakeTooHigh) else Stake(Ladder(c, n))
  {
    LadderIsPower(c, n);
  }

  // ----- When the next stake is the next rung -----

  /**
    The newest maxSteps + 1 orders are losses and skipped orders only, two or more of them skipped, and the losing
    streak goes on beyond them.
   */
  ghost predicate HidesLosses(c: Config, history: seq<Trade>) {
    var window := Window(Orders(history), c.maxSteps);
    && |history| > c.maxSteps + 1 && Undecided(window) && SkipCount(window) >= 2
    && LosingStreak(history[c.maxSteps + 1..]) != []
  }

  /** Nothing is outstanding, losses are hidden, and the stake for the losses in the window is allowed. */
  ghost predicate Misled(c: Config, history: seq<Trade>) {
    var skips := SkipCount(Window(Orders(history), c.maxSteps));
    && Resolved(history) && HidesLosses(c, history)
    && skips <= c.maxSteps + 1 && Ladder(c, c.maxSteps + 1 - skips) <= c.maxStake
  }

  /** A trigger places the next rung of the current losing streak, or nothing. */
  ghost predicate PlacesNextRung(c: Config, history: seq<Trade>) {
    Place(c, history) != history ==> NextStakeOk(c, LosingStreak(history), Place(c, history)[0].stake)
  }

  lemma {:induction false} OrdersOf(history: seq<Trade>)
    ensures |Orders(history)| == |history|
    ensures forall i :: 0 <= i < |history| ==> Orders(history)[i] == history[i].order
  {
    if history != [] { OrdersOf(history[1..]); }
  }

  /** Over a stretch of losses and skipped orders only, the streak grows by the losses. */
  lemma {:induction false} StreakSplits(history: seq<Trade>, n: nat)
    requires n <= |history| && Undecided(Orders(history[..n]))
    ensures SkipCount(Orders(history[..n])) <= n
    ensures |LosingStreak(history)| == n - SkipCount(Orders(history[..n])) + |LosingStreak(history[n..])|
    decreases n
  {
    var newest := history[..n];
    if n == 0 {
      assert history[n..] == history;
    } else {
      var rest := history[1..];
      assert newest[1..] == rest[..n - 1] && rest[n - 1..] == history[n..];
      assert Orders(newest) == [history[0].order] + Orders(rest[..n - 1]);
      assert Orders(newest)[1..] == Orders(rest[..n - 1]);
      assert Judge(Orders(newest)[0]).Skips? || Judge(Orders(newest)[0]).Lost?;
      StreakSplits(rest, n - 1);
    }
  }

  lemma {:induction false} WindowIsNewest(history: seq<Trade>, maxSteps: nat)
    requires |history| > maxSteps + 1
    ensures Window(Orders(history), maxSteps) == Orders(history[..maxSteps + 1])
    ensures Orders(history) == Window(Orders(history), maxSteps) + Orders(history[maxSteps + 1..])
  {
    OrdersOf(history);
    OrdersOf(history[..maxSteps + 1]);
    OrdersOf(history[maxSteps + 1..]);
  }

  /** A window of losses and skipped orders only: the scan counts the losses in it. */
  lemma {:induction false} UndecidedWindow(window: seq<Order>, maxSteps: nat)
    requires Undecided(window) && |window| == maxSteps + 1 && SkipCount(window) >= 2
    ensures SkipCount(window) <= maxSteps + 1
    ensures ScanFrom(window, maxSteps, 0) == Streak(maxSteps + 1 - SkipCount(window))
  {
    SkipCountBound(window);
    ScanRunsOff(window, [], maxSteps, 0);
    assert window + [] == window;
  }

  /** What hides losses makes the scan fall short of the streak. */
  lemma {:induction false} HiddenScan(c: Config, history: seq<Trade>)
    requires HidesLosses(c, history)
    ensures var window := Window(Orders(history), c.maxSteps);
      && SkipCount(window) <= c.maxSteps + 1
      && ScanFrom(window, c.maxSteps, 0) == Streak(c.maxSteps + 1 - SkipCount(window))
      && c.maxSteps + 1 - SkipCount(window) < |LosingStreak(history)|
  {
    WindowIsNewest(history, c.maxSteps);
    OrdersOf(history[..c.maxSteps + 1]);
    UndecidedWindow(Window(Orders(history), c.maxSteps), c.maxSteps);
    StreakSplits(history, c.maxSteps + 1);
  }

  /** Otherwise the scan of the window counts the losing streak, up to the limit. */
  lemma {:induction false} OpenScan(c: Config, history: seq<Trade>)
    requires 1 <= c.maxSteps && Resolved(history) && !HidesLosses(c, history)
    ensures ScanFrom(Window(Orders(history), c.maxSteps), c.maxSteps, 0)
            == if |LosingStreak(history)| >= c.maxSteps then Stop(MaxStepsReached)
               else Streak(|LosingStreak(history)|)
  {
    var window := Window(Orders(history), c.maxSteps);
    ScanCountsStreak(history, c.maxSteps, 0);
    OrdersOf(history);
    if |history| > c.maxSteps + 1 {
      WindowIsNewest(history, c.maxSteps);
      if Undecided(window) && SkipCount(window) >= 2 {
        UndecidedWindow(window, c.maxSteps);
        StreakSplits(history, c.maxSteps + 1);
      } else {
        ScanEndsInside(window, Orders(history[c.maxSteps + 1..]), c.maxSteps, 0);
      }
    }
  }

  lemma {:induction false} LadderIsPositive(c: Config, n: nat)
    requires c.Valid()
    ensures Ladder(c, n) > 0.0
  {
    if n > 0 {
      LadderIsPositive(c, n - 1);
      NextIsHigher(c.multiplier, Ladder(c, n - 1));
    }
  }

  lemma {:induction false} LadderGrows(c: Config, a: nat, b: nat)
    requires c.Valid() && a < b
    ensures Ladder(c, a) < Ladder(c, b)
    decreases b
  {
    LadderIsPositive(c, b - 1);
    var last := Ladder(c, b - 1);
    assert Ladder(c, b) == c.multiplier * last;
    NextIsHigher(c.multiplier, last);
    if a < b - 1 { LadderGrows(c, a, b - 1); }
  }

  lemma NextIsHigher(m: real, x: real)
    requires m > 1.0 && x > 0.0
    ensures m * x > x
  {
  }

  /** Where a trigger places an order, its stake is the streak's next rung exactly when no loss is hidden. */
  lemma {:induction false} StakeIsNextRungIff(c: Config, history: seq<Trade>)
    requires c.Valid() && Resolved(history) && Place(c, history) != history
    ensures Place(c, history)[0].stake == Ladder(c, |LosingStreak(history)|) <==> !HidesLosses(c, history)
  {
    if HidesLosses(c, history) {
      var seen := c.maxSteps + 1 - SkipCount(Window(Orders(history), c.maxSteps));
      HiddenScan(c, history);
      PriceOfStreak(c, seen);
      LadderGrows(c, seen, |LosingStreak(history)|);
    } else {
      OpenScan(c, history);
      PriceOfStreak(c, |LosingStreak(history)|);
    }
  }

  /** With no order outstanding a trigger that is not misled places the next rung, or nothing. */
  lemma {:induction false} FreeTrigger(c: Config, history: seq<Trade>)
    requires c.Valid() && Resolved(history) && !Misled(c, history)
    ensures Place(c, history) == history
            || (NextStakeOk(c, LosingStreak(history), Ladder(c, |LosingStreak(history)|))
                && Place(c, history)
                   == [Trade(Order(Submitted, None), Ladder(c, |LosingStreak(history)|))] + history)
  {
    if HidesLosses(c, history) {
      HiddenScan(c, history);
      PriceOfStreak(c, c.maxSteps + 1 - SkipCount(Window(Orders(history), c.maxSteps)));
    } else {
      OpenScan(c, history);
      PriceOfStreak(c, |LosingStreak(history)|);
    }
  }

  lemma {:induction false} PlacedKeeps(c: Config, history: seq<Trade>, stake: real)
    requires Inv(c, history) && Resolved(history) && NextStakeOk(c, LosingStreak(history), stake)
    ensures Inv(c, [Trade(Order(Submitted, None), stake)] + history)
  {
    var next := [Trade(Order(Submitted, None), stake)] + history;
    assert next[1..] == history;
  }

  lemma {:induction false} FreeTriggerKeeps(c: Config, history: seq<Trade>)
    requires Inv(c, history) && Resolved(history) && !Misled(c, history)
    ensures Inv(c, Place(c, history))
  {
    FreeTrigger(c, history);
    if Place(c, history) != history {
      PlacedKeeps(c, history, Ladder(c, |LosingStreak(history)|));
    }
  }

  lemma {:induction false} TriggerKeeps(c: Config, history: seq<Trade>)
    requires Inv(c, history) && !Misled(c, history)
    ensures Inv(c, Place(c, history))
  {
    if history != [] && Unresolved(history[0]) {
      BlockedTrigger(c, history);
    } else {
      FreeTriggerKeeps(c, history);
    }
  }

  /** Resolving the newest order extends the streak, ends it, or leaves it alone. */
  lemma ResolveKeeps(c: Config, history: seq<Trade>, order: Order)
    requires Inv(c, history) && history != [] && Unresolved(history[0])
    requires Judge(order).Lost? ==> -history[0].stake <= order.position.value.profit.value
    ensures Inv(c, [history[0].(order := order)] + history[1..])
  {
    var next := [history[0].(order := order)] + history[1..];
    assert next[1..] == history[1..];
    if Judge(order).Lost? {
      assert RungOk(c, next[0], |LosingStreak(history[1..])|);
      assert LosingStreak(next) == LosingStreak(history[1..]) + [next[0]];
    }
  }

  lemma {:induction false} StepKeeps(c: Config, history: seq<Trade>, e: Event)
    requires Inv(c, history)
    requires e == Trigger ==> !Misled(c, history)
    ensures Inv(c, Next(c, history, e))
  {
    match e
    case Trigger => TriggerKeeps(c, history);
    case Fill =>
      if history != [] && Unresolved(history[0]) {
        ResolveKeeps(c, history, Order(Executed, Some(Position(Open, None))));
      }
    case Settle(profit) =>
      if history != [] && Unresolved(history[0]) && -history[0].stake <= profit {
        ResolveKeeps(c, history, Order(Executed, Some(Position(Closed, Some(profit)))));
      }
    case Void =>
      if history != [] && Unresolved(history[0]) { ResolveKeeps(c, history, Order(Rejected, None)); }
  }

  /** No trigger of the run is misled. */
  ghost predicate NeverMisled(c: Config, history: seq<Trade>, events: seq<Event>)
    decreases |events|
  {
    events == []
    || ((events[0] == Trigger ==> !Misled(c, history))
        && NeverMisled(c, Next(c, history, events[0]), events[1..]))
  }

  lemma {:induction false} RunKeeps(c: Config, history: seq<Trade>, events: seq<Event>)
    requires Inv(c, history) && NeverMisled(c, history, events)
    ensures Inv(c, After(c, history, events))
    decreases |events|
  {
    if events != [] {
      StepKeeps(c, history, events[0]);
      RunKeeps(c, Next(c, history, events[0]), events[1..]);
    }
  }

  // ----- What a streak can lose -----

  lemma OneMoreRung(m: real, base: real, rung: real, total: real, loss: real)
    requires m > 1.0 && loss <= rung && (m - 1.0) * total <= rung - base
    ensures (m - 1.0) * (total + loss) <= m * rung - base
  {
    Spread(m - 1.0, total, loss);
    ScaleUp(m - 1.0, loss, rung);
    assert (m - 1.0) * rung == m * rung - rung;
  }

  lemma Spread(k: real, a: real, b: real)
    ensures k * (a + b) == k * a + k * b
  {
  }

  /** The stakes of a progression sum to base * (m^n - 1) / (m - 1). */
  lemma {:induction false} StreakLoss(c: Config, streak: seq<Trade>)
    requires c.Valid() && StreakOk(c, streak)
    ensures (c.multiplier - 1.0) * TotalLoss(streak) <= Ladder(c, |streak|) - c.baseStake
  {
    if streak == [] {
    } else {
      var n := |streak| - 1;
      var init, last := streak[..n], streak[n];
      assert RungOk(c, last, n);
      StreakLoss(c, init);
      OneMoreRung(c.multiplier, c.baseStake, Ladder(c, n), TotalLoss(init), Loss(last));
    }
  }

  /** The last stake is within the limit, so one more rung is within m times the limit. */
  lemma {:induction false} NextRung(c: Config, streak: seq<Trade>)
    requires c.Valid() && StreakOk(c, streak)
    ensures Ladder(c, |streak|) <= c.multiplier * c.maxStake
  {
    if streak == [] {
      ScaleUp(c.maxStake, 1.0, c.multiplier);
    } else {
      var n := |streak| - 1;
      assert RungOk(c, streak[n], n);
      ScaleUp(c.multiplier, Ladder(c, n), c.maxStake);
    }
  }

  /** A loss of at most (m * maxStake - base) / (m - 1), without the division. */
  ghost predicate LossWithinLimit(c: Config, loss: real) {
    (c.multiplier - 1.0) * loss <= c.multiplier * c.maxStake - c.baseStake
  }

  lemma {:induction false} StreakLossBound(c: Config, streak: seq<Trade>)
    requires c.Valid() && StreakOk(c, streak)
    ensures LossWithinLimit(c, TotalLoss(streak))
  {
    StreakLoss(c, streak);
    NextRung(c, streak);
  }

  // ----- Main result -----

  /**
    A streak staked base, base * m, base * m^2, ..., each at most maxStake, is at most maxSteps long, and lost
    at most (m * maxStake - base) / (m - 1).
   */
  ghost predicate StreakBounded(c: Config, streak: seq<Trade>) {
    && |streak| <= c.maxSteps
    && (forall i :: 0 <= i < |streak| ==>
          streak[i].stake == Ladder(c, i) && streak[i].stake <= c.maxStake)
    && LossWithinLimit(c, TotalLoss(streak))
  }

  lemma {:induction false} KeptIsBounded(c: Config, history: seq<Trade>)
    requires Inv(c, history)
    ensures StreakBounded(c, LosingStreak(history))
  {
    var streak := LosingStreak(history);
    StreakLossBound(c, streak);
    assert forall i :: 0 <= i < |streak| ==> RungOk(c, streak[i], i);
  }

  lemma Started(c: Config)
    requires c.Valid()
    ensures Inv(c, [])
  {
  }

  /** After any serial run from an empty history in which no trigger was misled the current losing streak is bounded. */
  lemma {:induction false} EveryStreakIsBounded(c: Config, events: seq<Event>)
    requires c.Valid() && NeverMisled(c, [], events)
    ensures StreakBounded(c, LosingStreak(After(c, [], events)))
  {
    Started(c);
    RunKeeps(c, [], events);
    KeptIsBounded(c, After(c, [], events));
  }

  // ----- The stake after each result -----

  /** What a trigger does to a history when the next rung would be this stake and the streak this long. */
  function Staked(c: Config, history: seq<Trade>, streak: nat, stake: real): seq<Trade> {
    if streak >= c.maxSteps || stake > c.maxStake then history
    else [Trade(Order(Submitted, None), stake)] + history
  }

  lemma {:induction false} OpenTrigger(c: Config, history: seq<Trade>)
    requires c.Valid() && Resolved(history) && !HidesLosses(c, history)
    ensures Place(c, history)
            == Staked(c, history, |LosingStreak(history)|, Ladder(c, |LosingStreak(history)|))
  {
    OpenScan(c, history);
    PriceOfStreak(c, |LosingStreak(history)|);
  }

  /** The next stake in answer to what became of an order with this stake. */
  function NextStake(c: Config, stake: real, e: Event): real {
    match e
    case Void => stake
    case Settle(profit) => if profit < 0.0 then c.multiplier * stake else c.baseStake
    case _ => stake
  }

  /**
    Where no loss is hidden, a loss multiplies the stake of the order that made it, a voided order's stake is staked
    again, and a profit or a result of zero goes back to the base stake.
   */
  lemma {:induction false} NextStakeAfter(c: Config, history: seq<Trade>, e: Event)
    requires Inv(c, history) && history != [] && Unresolved(history[0])
    requires e == Void || (e.Settle? && -history[0].stake <= e.profit)
    requires !HidesLosses(c, Next(c, history, e))
    ensures var t, n := Next(c, history, e), |LosingStreak(history[1..])|;
      Place(c, t) == Staked(c, t, if e == Void then n else if e.profit < 0.0 then n + 1 else 0,
                            NextStake(c, history[0].stake, e))
  {
    var t := Next(c, history, e);
    assert t[1..] == history[1..];
    AllResolved(t);
    OpenTrigger(c, t);
    var n, stake := |LosingStreak(history[1..])|, history[0].stake;
    assert NextStakeOk(c, LosingStreak(history[1..]), stake);
    if e == Void {
      assert LosingStreak(t) == LosingStreak(t[1..]);
    } else if e.profit < 0.0 {
      assert LosingStreak(t) == LosingStreak(t[1..]) + [t[0]];
      assert |LosingStreak(t)| == n + 1;
      RungAfter(c, n, stake);
      assert NextStake(c, stake, e) == Ladder(c, n + 1);
    } else {
      assert LosingStreak(t) == [];
    }
  }

  lemma RungAfter(c: Config, n: nat, stake: real)
    requires stake == Ladder(c, n)
    ensures Ladder(c, n + 1) == c.multiplier * stake
  {
  }

  lemma AllResolved(history: seq<Trade>)
    requires history != [] && !Unresolved(history[0]) && Resolved(history[1..])
    ensures Resolved(history)
  {
    forall i | 1 <= i < |history| ensures !Unresolved(history[i]) { assert history[1..][i - 1] == history[i]; }
  }

  /** A profit or a result of zero goes back to the base stake whatever is hidden. */
  lemma {:induction false} ProfitResets(c: Config, history: seq<Trade>, profit: real)
    requires c.Valid() && history != [] && Unresolved(history[0]) && profit >= 0.0 && -history[0].stake <= profit
    ensures var t := Next(c, history, Settle(profit));
      Place(c, t) == [Trade(Order(Submitted, None), c.baseStake)] + t
  {
    var t := Next(c, history, Settle(profit));
    var window := Window(Orders(t), c.maxSteps);
    assert window[0] == Order(Executed, Some(Position(Closed, Some(profit))));
    assert ScanFrom(window, c.maxSteps, 0) == Streak(0);
    assert Pow(c.multiplier, 0) == 1.0;
  }

  // ----- Exactly when a run keeps the progression -----

  /** Serial histories: only the newest order may be unresolved. */
  ghost predicate Serial(history: seq<Trade>) {
    history != [] ==> Resolved(history[1..])
  }

  /** Every order of the run stakes the next rung of the losing streak it finds. */
  ghost predicate ProgressionKept(c: Config, history: seq<Trade>, events: seq<Event>)
    decreases |events|
  {
    events == []
    || ((events[0] == Trigger ==> PlacesNextRung(c, history))
        && ProgressionKept(c, Next(c, history, events[0]), events[1..]))
  }

  lemma {:induction false} PlacesNextRungIff(c: Config, history: seq<Trade>)
    requires c.Valid() && Serial(history)
    ensures PlacesNextRung(c, history) <==> !Misled(c, history)
  {
    if history != [] && Unresolved(history[0]) {
      BlockedTrigger(c, history);
    } else if Misled(c, history) {
      HiddenScan(c, history);
      PriceOfStreak(c, c.maxSteps + 1 - SkipCount(Window(Orders(history), c.maxSteps)));
      StakeIsNextRungIff(c, history);
    } else {
      FreeTrigger(c, history);
    }
  }

  lemma {:induction false} SerialNext(c: Config, history: seq<Trade>, e: Event)
    requires Serial(history)
    ensures Serial(Next(c, history, e))
  {
    var next := Next(c, history, e);
    if e == Trigger && history != [] && Unresolved(history[0]) { BlockedTrigger(c, history); }
    assert next == history || next[1..] == if e == Trigger then history else history[1..];
  }

  lemma {:induction false} ProgressionKeptFrom(c: Config, history: seq<Trade>, events: seq<Event>)
    requires c.Valid() && Serial(history)
    ensures ProgressionKept(c, history, events) <==> NeverMisled(c, history, events)
    decreases |events|
  {
    if events != [] {
      PlacesNextRungIff(c, history);
      SerialNext(c, history, events[0]);
      ProgressionKeptFrom(c, Next(c, history, events[0]), events[1..]);
    }
  }

  /** Over every serial run every order stakes the next rung of the streak exactly when no trigger is misled. */
  lemma {:induction false} ProgressionKeptIff(c: Config, events: seq<Event>)
    requires c.Valid()
    ensures ProgressionKept(c, [], events) <==> NeverMisled(c, [], events)
  {
    ProgressionKeptFrom(c, [], events);
  }

  // ----- Exactly when the streak limit fails -----

  /** A scan reaches the limit only after that many losses. */
  lemma {:induction false} ShortScan(orders: seq<Order>, maxSteps: nat, streak: nat)
    requires streak < maxSteps && ScanFrom(orders, maxSteps, streak) == Stop(MaxStepsReached)
    ensures streak + |orders| - SkipCount(orders) >= maxSteps
  {
    if orders != [] {
      match Judge(orders[0])
      case Blocks(_) =>
      case Resets =>
      case Skips => ShortScan(orders[1..], maxSteps, streak);
      case Lost =>
        SkipCountBound(orders[1..]);
        if streak + 1 < maxSteps { ShortScan(orders[1..], maxSteps, streak + 1); }
    }
  }

  lemma {:induction false} WindowFallsShort(window: seq<Order>, maxSteps: nat)
    requires 1 <= maxSteps && |window| <= maxSteps + 1 && SkipCount(window) >= 2
    ensures ScanFrom(window, maxSteps, 0) != Stop(MaxStepsReached)
  {
    if ScanFrom(window, maxSteps, 0) == Stop(MaxStepsReached) { ShortScan(window, maxSteps, 0); }
  }

  /**
    With a full losing streak and no order outstanding, a trigger places an order all the same exactly when two or
    more of the newest maxSteps + 1 orders were never executed and the stake for the losses among them is allowed.
   */
  lemma {:induction false} LimitFailsIff(c: Config, history: seq<Trade>)
    requires c.Valid() && Resolved(history) && |LosingStreak(history)| >= c.maxSteps
    ensures var skips := SkipCount(Window(Orders(history), c.maxSteps));
      Place(c, history) != history
      <==> skips >= 2 && skips <= c.maxSteps + 1
           && c.baseStake * Pow(c.multiplier, c.maxSteps + 1 - skips) <= c.maxStake
  {
    var window := Window(Orders(history), c.maxSteps);
    if HidesLosses(c, history) {
      HiddenScan(c, history);
    } else {
      OpenScan(c, history);
      if SkipCount(window) >= 2 { WindowFallsShort(window, c.maxSteps); }
    }
  }

  /** The losing streak is full, and skipped orders hide enough of it for the next trigger to be allowed. */
  ghost predicate Oversteps(c: Config, history: seq<Trade>) {
    var skips := SkipCount(Window(Orders(history), c.maxSteps));
    && Resolved(history) && |LosingStreak(history)| >= c.maxSteps
    && 2 <= skips <= c.maxSteps + 1 && c.baseStake * Pow(c.multiplier, c.maxSteps + 1 - skips) <= c.maxStake
  }

  /** No trigger of the run places an order on a full losing streak. */
  ghost predicate LimitKept(c: Config, history: seq<Trade>, events: seq<Event>)
    decreases |events|
  {
    events == []
    || ((events[0] == Trigger && Place(c, history) != history ==> |LosingStreak(history)| < c.maxSteps)
        && LimitKept(c, Next(c, history, events[0]), events[1..]))
  }

  ghost predicate NeverOversteps(c: Config, history: seq<Trade>, events: seq<Event>)
    decreases |events|
  {
    events == []
    || ((events[0] == Trigger ==> !Oversteps(c, history))
        && NeverOversteps(c, Next(c, history, events[0]), events[1..]))
  }

  lemma {:induction false} FullStreakPlacesIff(c: Config, history: seq<Trade>)
    requires c.Valid() && Serial(history) && |LosingStreak(history)| >= c.maxSteps
    ensures Place(c, history) != history <==> Oversteps(c, history)
  {
    if history != [] && Unresolved(history[0]) {
      BlockedTrigger(c, history);
    } else {
      LimitFailsIff(c, history);
    }
  }

  lemma {:induction false} LimitKeptFrom(c: Config, history: seq<Trade>, events: seq<Event>)
    requires c.Valid() && Serial(history)
    ensures LimitKept(c, history, events) <==> NeverOversteps(c, history, events)
    decreases |events|
  {
    if events != [] {
      if |LosingStreak(history)| >= c.maxSteps { FullStreakPlacesIff(c, history); }
      LimitKeptFrom(c, Next(c, history, events[0]), events[1..]);
    }
  }

  /** The streak has room for the order that is outstanding. */
  ghost predicate Short(c: Config, history: seq<Trade>) {
    && Serial(history) && |LosingStreak(history)| <= c.maxSteps
    && (history != [] && Unresolved(history[0]) ==> |LosingStreak(history[1..])| < c.maxSteps)
  }

  lemma {:induction false} ShortRun(c: Config, history: seq<Trade>, events: seq<Event>)
    requires c.Valid() && Short(c, history) && LimitKept(c, history, events)
    ensures |LosingStreak(After(c, history, events))| <= c.maxSteps
    decreases |events|
  {
    if events != [] {
      ShortRun(c, Next(c, history, events[0]), events[1..]);
    }
  }

  /**
    Over every serial run, whatever is voided: the node never adds to a full losing streak exactly when no trigger
    finds such hidden losses, and then no streak is longer than maxSteps.
   */
  lemma {:induction false} LimitKeptIff(c: Config, events: seq<Event>)
    requires c.Valid()
    ensures LimitKept(c, [], events) <==> NeverOversteps(c, [], events)
    ensures NeverOversteps(c, [], events) ==> |LosingStreak(After(c, [], events))| <= c.maxSteps
  {
    LimitKeptFrom(c, [], events);
    if NeverOversteps(c, [], events) { ShortRun(c, [], events); }
  }

  lemma {:induction false} AfterSnoc(c: Config, history: seq<Trade>, events: seq<Event>, e: Event)
    ensures After(c, history, events + [e]) == Next(c, After(c, history, events), e)
    decreases |events|
  {
    if events == [] {
      assert [e][1..] == [];
      assert After(c, history, [e]) == After(c, Next(c, history, e), [e][1..]);
      assert events + [e] == [e];
    } else {
      assert (events + [e])[1..] == events[1..] + [e];
      AfterSnoc(c, Next(c, history, events[0]), events[1..], e);
    }
  }

  // ----- A run past the limit -----

  function LostOne(stake: real): Trade {
    Trade(Order(Executed, Some(Position(Closed, Some(-1.0)))), stake)
  }

  function Voided(stake: real): Trade {
    Trade(Order(Rejected, None), stake)
  }

  function Sent(stake: real): Trade {
    Trade(Order(Submitted, None), stake)
  }

  /** With one loss among the newest three orders, two steps allowed and nothing outstanding, the next stake is 2. */
  lemma {:induction false} OneLossStakesTwo(c: Config, history: seq<Trade>)
    requires c == Config(1.0, 2.0, 2, 100.0)
    requires history == [LostOne(1.0)] || history == [Voided(2.0), LostOne(1.0)]
             || history == [Voided(2.0), Voided(2.0), LostOne(1.0)]
             || history == [LostOne(2.0), Voided(2.0), Voided(2.0), LostOne(1.0)]
    ensures Place(c, history) == [Sent(2.0)] + history
  {
    var skipped, lost := Order(Rejected, None), Order(Executed, Some(Position(Closed, Some(-1.0))));
    assert Pow(2.0, 1) == 2.0 * Pow(2.0, 0);
    assert [lost][1..] == [] && [skipped, lost][1..] == [lost] && [skipped, skipped, lost][1..] == [skipped, lost];
    assert ScanFrom([lost], 2, 0) == ScanFrom([lost][1..], 2, 1) == Streak(1);
    assert ScanFrom([skipped, lost], 2, 0) == ScanFrom([skipped, lost][1..], 2, 0);
    assert ScanFrom([skipped, skipped, lost], 2, 0) == ScanFrom([skipped, skipped, lost][1..], 2, 0);
    var w := [lost, skipped, skipped];
    assert w[1..] == [skipped, skipped] && w[1..][1..] == [skipped] && w[1..][1..][1..] == [];
    assert ScanFrom(w[1..][1..], 2, 1) == ScanFrom(w[1..][1..][1..], 2, 1) == Streak(1);
    assert ScanFrom(w[1..], 2, 1) == ScanFrom(w[1..][1..], 2, 1);
    assert ScanFrom(w, 2, 0) == ScanFrom(w[1..], 2, 1) == Streak(1);
    OrdersOf(history);
    var seen := Window(Orders(history), 2);
    assert seen == [lost] || seen == [skipped, lost] || seen == [skipped, skipped, lost] || seen == w;
    assert Decide(c, Orders(history)) == Price(c, Streak(1)) == Stake(2.0);
  }

  lemma {:induction false} Settled(c: Config, events: seq<Event>, stake: real, rest: seq<Trade>)
    returns (more: seq<Event>)
    requires After(c, [], events) == [Sent(stake)] + rest && stake >= 1.0
    ensures more == events + [Settle(-1.0)] && After(c, [], more) == [LostOne(stake)] + rest
  {
    more := events + [Settle(-1.0)];
    AfterSnoc(c, [], events, Settle(-1.0));
    assert ([Sent(stake)] + rest)[1..] == rest;
  }

  lemma {:induction false} VoidedNext(c: Config, events: seq<Event>, rest: seq<Trade>) returns (more: seq<Event>)
    requires After(c, [], events) == [Sent(2.0)] + rest
    ensures more == events + [Void] && After(c, [], more) == [Voided(2.0)] + rest
  {
    more := events + [Void];
    AfterSnoc(c, [], events, Void);
    assert ([Sent(2.0)] + rest)[1..] == rest;
  }

  lemma {:induction false} LossAndTwoVoids(c: Config) returns (events: seq<Event>)
    requires c == Config(1.0, 2.0, 2, 100.0)
    ensures events == [Trigger, Settle(-1.0), Trigger, Void, Trigger, Void]
    ensures After(c, [], events) == [Voided(2.0), Voided(2.0), LostOne(1.0)]
  {
    var l, v := LostOne(1.0), Voided(2.0);
    AfterSnoc(c, [], [], Trigger);
    var e2 := Settled(c, [] + [Trigger], 1.0, []);
    assert [l] + [] == [l];
    OneLossStakesTwo(c, [l]);
    AfterSnoc(c, [], e2, Trigger);
    var e4 := VoidedNext(c, e2 + [Trigger], [l]);
    assert [v] + [l] == [v, l];
    OneLossStakesTwo(c, [v, l]);
    AfterSnoc(c, [], e4, Trigger);
    events := VoidedNext(c, e4 + [Trigger], [v, l]);
    assert [v] + [v, l] == [v, v, l];
  }

  lemma {:induction false} SecondLoss(c: Config, events: seq<Event>)
    requires c == Config(1.0, 2.0, 2, 100.0)
    requires After(c, [], events) == [Voided(2.0), Voided(2.0), LostOne(1.0)]
    ensures After(c, [], events + [Trigger] + [Settle(-1.0)] + [Trigger])
            == [Sent(2.0), LostOne(2.0), Voided(2.0), Voided(2.0), LostOne(1.0)]
  {
    var h := [Voided(2.0), Voided(2.0), LostOne(1.0)];
    OneLossStakesTwo(c, h);
    AfterSnoc(c, [], events, Trigger);
    var e8 := Settled(c, events + [Trigger], 2.0, h);
    assert [LostOne(2.0)] + h == [LostOne(2.0), Voided(2.0), Voided(2.0), LostOne(1.0)];
    OneLossStakesTwo(c, [LostOne(2.0)] + h);
    AfterSnoc(c, [], e8, Trigger);
  }

  /**
    Two steps allowed: after a loss, two voided orders and a second loss in a row the node still places an order,
    because the newest three orders show one loss only.
   */
  lemma {:induction false} SkipsBreakTheLimit()
    ensures var c := Config(1.0, 2.0, 2, 100.0);
      var events := [Trigger, Settle(-1.0), Trigger, Void, Trigger, Void, Trigger, Settle(-1.0), Trigger];
      var history := [Sent(2.0), LostOne(2.0), Voided(2.0), Voided(2.0), LostOne(1.0)];
      c.Valid() && After(c, [], events) == history && |LosingStreak(history[1..])| == c.maxSteps
  {
    var c := Config(1.0, 2.0, 2, 100.0);
    var e6 := LossAndTwoVoids(c);
    SecondLoss(c, e6);
    assert e6 + [Trigger] + [Settle(-1.0)] + [Trigger]
        == [Trigger, Settle(-1.0), Trigger, Void, Trigger, Void, Trigger, Settle(-1.0), Trigger];
    TwoLostWithTwoVoided();
    assert [Sent(2.0), LostOne(2.0), Voided(2.0), Voided(2.0), LostOne(1.0)][1..]
        == [LostOne(2.0), Voided(2.0), Voided(2.0), LostOne(1.0)];
  }

  lemma {:induction false} TwoLostWithTwoVoided()
    ensures LosingStreak([LostOne(2.0), Voided(2.0), Voided(2.0), LostOne(1.0)]) == [LostOne(1.0), LostOne(2.0)]
  {
    var l, v := LostOne(1.0), Voided(2.0);
    assert [l][1..] == [] && [v, l][1..] == [l] && [v, v, l][1..] == [v, l];
    assert [LostOne(2.0), v, v, l][1..] == [v, v, l];
    assert LosingStreak([l]) == LosingStreak([l][1..]) + [l] == [l];
    assert LosingStreak([v, l]) == LosingStreak([v, l][1..]);
    assert LosingStreak([v, v, l]) == LosingStreak([v, v, l][1..]);
    assert LosingStreak([LostOne(2.0), v, v, l]) == LosingStreak([LostOne(2.0), v, v, l][1..]) + [LostOne(2.0)];
  }
}
