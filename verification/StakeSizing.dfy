/**
  Risk-capped stake sizing: four budgets over one account, the smallest of which caps the recommended stake.
  Amounts are exact decimals.
 */
module StakeSizing {
  import opened Options
  import opened Reals

  /** A value as it arrives: absent, not a finite number, or an amount. */
  datatype Raw = Missing | Invalid | Amount(value: real)

  function Decimal(raw: Raw, default: real): real {
    if raw.Amount? then raw.value else default
  }

  /** The broker's figures for the account. */
  datatype Quote = Quote(balance: Raw, margin: Raw, freeMargin: Raw)

  datatype Source = Fresh(quote: Quote) | Synced(quote: Quote) | NeverSynced

  datatype OpenPosition = OpenPosition(stake: Option<real>, orderId: string)

  datatype OpenOrder = OpenOrder(stake: real, orderId: string)

  datatype Profile = Profile(riskPerTrade: Raw, dailyLoss: Raw, exposure: Raw)

  /** `settled` are the profits of the trades settled today, `settledOrders` the broker ids ever settled. */
  datatype Inputs = Inputs(
    source: Source,
    settled: seq<Option<real>>,
    settledOrders: set<string>,
    orders: seq<OpenOrder>,
    positions: seq<OpenPosition>,
    profile: Profile,
    confidence: Raw,
    highVolatility: bool)

  datatype Budgets = Budgets(risk: real, daily: real, exposure: real, funds: real)

  datatype Context = Context(
    recommendedStake: real,
    budgets: Budgets,
    realizedLoss: real,
    openStake: real,
    complete: bool)

  const PLACES := 100000000.0

  /** Truncation toward zero to eight decimal places. */
  function Money(x: real): real {
    if x >= 0.0 then (x * PLACES).Floor as real / PLACES else -((-x * PLACES).Floor as real / PLACES)
  }

  // ----- What is known -----

  function QuoteOf(s: Source): Quote {
    match s
    case Fresh(q) => q
    case Synced(q) => q
    case NeverSynced => Quote(Missing, Missing, Missing)
  }

  predicate BalanceKnown(i: Inputs) { !QuoteOf(i.source).balance.Missing? }

  predicate FundsKnown(i: Inputs) {
    var q := QuoteOf(i.source);
    !q.freeMargin.Missing? || (!q.balance.Missing? && !q.margin.Missing?)
  }

  predicate LossKnown(i: Inputs) {
    None !in i.settled
  }

  function Balance(i: Inputs): real {
    Decimal(QuoteOf(i.source).balance, 0.0)
  }

  function Funds(i: Inputs): real {
    var q := QuoteOf(i.source);
    if !q.freeMargin.Missing? then Max(0.0, Decimal(q.freeMargin, 0.0))
    else if FundsKnown(i) then Max(0.0, Balance(i) - Decimal(q.margin, 0.0))
    else 0.0
  }

  /** The losses among the day's settled trades; profits do not offset them. */
  function RealizedLoss(settled: seq<Option<real>>): (loss: real)
    ensures loss >= 0.0
  {
    if settled == [] then 0.0
    else
      var last := settled[|settled| - 1];
      RealizedLoss(settled[..|settled| - 1]) + if last.Some? && last.value < 0.0 then -last.value else 0.0
  }

  // ----- Open exposure -----

  /** Does some open position carry this (non-empty) broker order id? */
  predicate Covered(id: string, positions: seq<OpenPosition>) {
    id != "" && exists k | 0 <= k < |positions| :: positions[k].orderId == id
  }

  /** Open orders that are neither settled nor already counted as a position. */
  function Uncovered(orders: seq<OpenOrder>, settled: set<string>, positions: seq<OpenPosition>): seq<OpenOrder> {
    if orders == [] then []
    else
      var rest := Uncovered(orders[1..], settled, positions);
      if (orders[0].orderId != "" && orders[0].orderId in settled) || Covered(orders[0].orderId, positions) then rest
      else [orders[0]] + rest
  }

  function OrderStakes(orders: seq<OpenOrder>): real {
    if orders == [] then 0.0 else orders[0].stake + OrderStakes(orders[1..])
  }

  function PositionStakes(positions: seq<OpenPosition>): real {
    if positions == [] then 0.0
    else (if positions[0].stake.Some? then positions[0].stake.value else 0.0) + PositionStakes(positions[1..])
  }

  predicate AllStated(positions: seq<OpenPosition>) {
    forall k | 0 <= k < |positions| :: positions[k].stake.Some?
  }

  predicate AllPositive(orders: seq<OpenOrder>) {
    forall k | 0 <= k < |orders| :: orders[k].stake > 0.0
  }

  predicate ExposureKnown(i: Inputs) {
    AllStated(i.positions) && AllPositive(Uncovered(i.orders, i.settledOrders, i.positions))
  }

  function OpenStake(i: Inputs): real {
    if ExposureKnown(i)
    then PositionStakes(i.positions) + OrderStakes(Uncovered(i.orders, i.settledOrders, i.positions))
    else 0.0
  }

  // ----- Budgets and the recommended stake -----

  function Fraction(raw: Raw, default: real): real {
    Max(0.0, Decimal(raw, default))
  }

  function DailyFraction(i: Inputs): real {
    Fraction(i.profile.dailyLoss, 0.04)
  }

  /** What sizing needs to know of the account; a figure that is not known is missing. */
  datatype Facts = Facts(
    balance: Option<real>,
    funds: Option<real>,
    realizedLoss: Option<real>,
    openStake: Option<real>)

  function FactsFrom(i: Inputs, realizedLoss: real): Facts {
    Facts(
      if BalanceKnown(i) then Some(Balance(i)) else None,
      if FundsKnown(i) then Some(Funds(i)) else None,
      if LossKnown(i) then Some(realizedLoss) else None,
      if ExposureKnown(i) then Some(OpenStake(i)) else None)
  }

  function BudgetsOf(f: Facts, p: Profile): Budgets {
    if f.balance.None? then Budgets(0.0, 0.0, 0.0, if f.funds.Some? then f.funds.value else 0.0)
    else
      var balance := f.balance.value;
      Budgets(
        balance * Fraction(p.riskPerTrade, 0.02),
        if f.realizedLoss.Some? then Max(0.0, balance * Fraction(p.dailyLoss, 0.04) - f.realizedLoss.value) else 0.0,
        if f.openStake.Some? then Max(0.0, balance * Fraction(p.exposure, 0.35) - f.openStake.value) else 0.0,
        if f.funds.Some? then f.funds.value else 0.0)
  }

  function Cap(b: Budgets): real {
    Max(0.0, Min(Min(Min(b.risk, b.daily), b.exposure), b.funds))
  }

  /** Low or unknown confidence and high volatility halve the stake; middling confidence takes a quarter off. */
  function Tempered(cap: real, confidence: Raw, highVolatility: bool): real {
    var value := Decimal(confidence, 0.0);
    if confidence.Missing? || value < 60.0 || highVolatility then Min(cap * 0.50, cap)
    else if value < 75.0 then Min(cap * 0.75, cap)
    else Min(cap * 1.00, cap)
  }

  function StakeFrom(b: Budgets, confidence: Raw, highVolatility: bool): real {
    Money(Tempered(Cap(b), confidence, highVolatility))
  }

  function AccountBudgets(i: Inputs): Budgets {
    BudgetsOf(FactsFrom(i, RealizedLoss(i.settled)), i.profile)
  }

  function Recommended(i: Inputs): real {
    StakeFrom(AccountBudgets(i), i.confidence, i.highVolatility)
  }

  predicate Complete(i: Inputs) {
    BalanceKnown(i) && FundsKnown(i) && LossKnown(i) && ExposureKnown(i)
  }

  method SumLosses(settled: seq<Option<real>>) returns (realizedLoss: real)
    ensures realizedLoss == RealizedLoss(settled)
  {
    realizedLoss := 0.0;
    for k := 0 to |settled|
      invariant realizedLoss == RealizedLoss(settled[..k])
    {
      assert settled[..k + 1][..k] == settled[..k];
      if settled[k].Some? {
        var profit := settled[k].value;
        if profit < 0.0 {
          realizedLoss := realizedLoss - profit;
        }
      }
    }
    assert settled[..|settled|] == settled;
  }

  method SumPositions(positions: seq<OpenPosition>) returns (known: bool, stakes: real)
    ensures known <==> AllStated(positions)
    ensures stakes == PositionStakes(positions)
  {
    known, stakes := true, 0.0;
    for k := 0 to |positions|
      invariant known <==> AllStated(positions[..k])
      invariant stakes + PositionStakes(positions[k..]) == PositionStakes(positions)
    {
      assert positions[k..][0] == positions[k] && positions[k..][1..] == positions[k + 1..];
      assert positions[..k + 1] == positions[..k] + [positions[k]];
      match positions[k].stake {
        case None => known := false;
        case Some(stake) => stakes := stakes + stake;
      }
    }
    assert positions[..|positions|] == positions;
  }

  lemma {:induction false} UncoveredStep(orders: seq<OpenOrder>, settled: set<string>, positions: seq<OpenPosition>,
                                         k: nat)
    requires k < |orders|
    ensures var o, rest := orders[k], Uncovered(orders[k + 1..], settled, positions);
      Uncovered(orders[k..], settled, positions)
      == if (o.orderId != "" && o.orderId in settled) || Covered(o.orderId, positions) then rest else [o] + rest
  {
    assert orders[k..][0] == orders[k] && orders[k..][1..] == orders[k + 1..];
  }

  lemma AllPositiveCons(o: OpenOrder, rest: seq<OpenOrder>)
    ensures AllPositive([o] + rest) <==> o.stake > 0.0 && AllPositive(rest)
  {
    var all := [o] + rest;
    assert all[0] == o;
    if AllPositive(all) {
      forall k | 0 <= k < |rest| ensures rest[k].stake > 0.0 { assert all[k + 1] == rest[k]; }
    }
    if o.stake > 0.0 && AllPositive(rest) {
      forall k | 0 <= k < |all| ensures all[k].stake > 0.0 {
        if k > 0 { assert all[k] == rest[k - 1]; }
      }
    }
  }

  method SumOrders(orders: seq<OpenOrder>, settled: set<string>, positions: seq<OpenPosition>)
    returns (known: bool, stakes: real)
    ensures known <==> AllPositive(Uncovered(orders, settled, positions))
    ensures stakes == OrderStakes(Uncovered(orders, settled, positions))
  {
    known, stakes := true, 0.0;
    for k := 0 to |orders|
      invariant known && AllPositive(Uncovered(orders[k..], settled, positions))
                <==> AllPositive(Uncovered(orders, settled, positions))
      invariant stakes + OrderStakes(Uncovered(orders[k..], settled, positions))
                == OrderStakes(Uncovered(orders, settled, positions))
    {
      var o := orders[k];
      UncoveredStep(orders, settled, positions, k);
      if (o.orderId != "" && o.orderId in settled) || Covered(o.orderId, positions) {
        continue;
      }
      AllPositiveCons(o, Uncovered(orders[k + 1..], settled, positions));
      ghost var rest := Uncovered(orders[k + 1..], settled, positions);
      assert ([o] + rest)[1..] == rest;
      if o.stake <= 0.0 {
        known := false;
      }
      stakes := stakes + o.stake;
    }
  }

  // ----- The stake and the budgets -----

  function RiskLimit(i: Inputs): real { Balance(i) * Fraction(i.profile.riskPerTrade, 0.02) }

  function DailyLimit(i: Inputs): real { Balance(i) * DailyFraction(i) }

  function ExposureLimit(i: Inputs): real { Balance(i) * Fraction(i.profile.exposure, 0.35) }

  lemma FloorBounds(y: real)
    requires y >= 0.0
    ensures 0.0 <= y.Floor as real <= y < y.Floor as real + 1.0
  {
  }

  /** Truncation never rounds a stake up, and takes less than one unit of the last place. */
  lemma MoneyTruncates(x: real)
    requires x >= 0.0
    ensures 0.0 <= Money(x) <= x < Money(x) + 1.0 / PLACES
  {
    FloorBounds(x * PLACES);
  }

  lemma StakeWithinCap(b: Budgets, confidence: Raw, highVolatility: bool)
    ensures 0.0 <= StakeFrom(b, confidence, highVolatility) <= Cap(b)
  {
    MoneyTruncates(Tempered(Cap(b), confidence, highVolatility));
  }

  lemma BudgetsAreSigned(i: Inputs)
    ensures AccountBudgets(i).daily >= 0.0 && AccountBudgets(i).exposure >= 0.0 && AccountBudgets(i).funds >= 0.0
  {
  }

  /**
    The stake is never negative and never above the daily, exposure and funds budgets; it is above the risk budget
    exactly when that budget is negative.
   */
  lemma StakeWithinBudgets(i: Inputs)
    ensures var b := AccountBudgets(i);
      && 0.0 <= Recommended(i) && Recommended(i) <= b.daily && Recommended(i) <= b.exposure && Recommended(i) <= b.funds
      && (Recommended(i) <= b.risk <==> 0.0 <= b.risk)
  {
    var b := AccountBudgets(i);
    BudgetsAreSigned(i);
    StakeWithinCap(b, i.confidence, i.highVolatility);
  }

  lemma UnknownMeansNoBudget(i: Inputs)
    requires !Complete(i)
    ensures var b := AccountBudgets(i); b.risk == 0.0 || b.daily == 0.0 || b.exposure == 0.0 || b.funds == 0.0
  {
  }

  lemma NegativeProductIff(a: real, f: real)
    requires f >= 0.0
    ensures a * f < 0.0 <==> a < 0.0 && f > 0.0
  {
  }

  lemma RiskBudgetIs(i: Inputs)
    ensures AccountBudgets(i).risk == if BalanceKnown(i) then RiskLimit(i) else 0.0
  {
  }

  /** The stake exceeds the risk budget exactly on a negative balance with a positive risk fraction. */
  lemma StakeAboveRiskIff(i: Inputs)
    ensures Recommended(i) > AccountBudgets(i).risk
            <==> Balance(i) < 0.0 && Fraction(i.profile.riskPerTrade, 0.02) > 0.0
  {
    StakeWithinBudgets(i);
    RiskBudgetIs(i);
    NegativeProductIff(Balance(i), Fraction(i.profile.riskPerTrade, 0.02));
  }

  /** Such an account: a balance of -100 and the default profile. */
  lemma DebtExceedsRiskBudget()
    ensures var i := Inputs(Fresh(Quote(Amount(-100.0), Amount(0.0), Amount(0.0))), [], {}, [], [],
                            Profile(Invalid, Invalid, Invalid), Missing, false);
      Recommended(i) == 0.0 && AccountBudgets(i).risk == -2.0
  {
    var i := Inputs(Fresh(Quote(Amount(-100.0), Amount(0.0), Amount(0.0))), [], {}, [], [],
                    Profile(Invalid, Invalid, Invalid), Missing, false);
    RiskBudgetIs(i);
    NoStakeInDebt(i);
  }

  /** Anything unknown, and the stake is zero. */
  lemma FailsClosed(i: Inputs)
    requires !Complete(i)
    ensures Recommended(i) == 0.0
  {
    UnknownMeansNoBudget(i);
    StakeWithinBudgets(i);
  }

  lemma NegativeProduct(a: real, f: real)
    requires a <= 0.0 && f >= 0.0
    ensures a * f <= 0.0
  {
  }

  lemma DebtMeansNoBudget(i: Inputs)
    requires Balance(i) <= 0.0
    ensures AccountBudgets(i).risk <= 0.0
  {
    NegativeProduct(Balance(i), Fraction(i.profile.riskPerTrade, 0.02));
  }

  /** An account in debt, or with an unreadable balance, is never offered a stake. */
  lemma NoStakeInDebt(i: Inputs)
    requires Balance(i) <= 0.0
    ensures Recommended(i) == 0.0
  {
    DebtMeansNoBudget(i);
    StakeWithinCap(AccountBudgets(i), i.confidence, i.highVolatility);
  }

  /** What an amount must keep to: the risk per trade, the day's loss, the open exposure and the funds. */
  predicate WithinLimits(i: Inputs, amount: real) {
    && amount <= RiskLimit(i)
    && RealizedLoss(i.settled) + amount <= DailyLimit(i)
    && OpenStake(i) + amount <= ExposureLimit(i)
    && amount <= Funds(i)
  }

  lemma LeavesAmountIff(amount: real, limit: real, used: real)
    requires amount > 0.0
    ensures amount <= Max(0.0, limit - used) <==> used + amount <= limit
  {
  }

  lemma RiskAndFundsIff(i: Inputs, amount: real)
    requires Complete(i)
    ensures amount <= AccountBudgets(i).risk <==> amount <= RiskLimit(i)
    ensures amount <= AccountBudgets(i).funds <==> amount <= Funds(i)
  {
  }

  lemma DailyBudgetIs(i: Inputs)
    requires Complete(i)
    ensures AccountBudgets(i).daily == Max(0.0, DailyLimit(i) - RealizedLoss(i.settled))
  {
  }

  lemma ExposureBudgetIs(i: Inputs)
    requires Complete(i)
    ensures AccountBudgets(i).exposure == Max(0.0, ExposureLimit(i) - OpenStake(i))
  {
  }

  lemma DailyIff(i: Inputs, amount: real)
    requires Complete(i) && amount > 0.0
    ensures amount <= AccountBudgets(i).daily <==> RealizedLoss(i.settled) + amount <= DailyLimit(i)
  {
    DailyBudgetIs(i);
    LeavesAmountIff(amount, DailyLimit(i), RealizedLoss(i.settled));
  }

  lemma ExposureIff(i: Inputs, amount: real)
    requires Complete(i) && amount > 0.0
    ensures amount <= AccountBudgets(i).exposure <==> OpenStake(i) + amount <= ExposureLimit(i)
  {
    ExposureBudgetIs(i);
    LeavesAmountIff(amount, ExposureLimit(i), OpenStake(i));
  }

  lemma CapIsLeast(b: Budgets, amount: real)
    requires amount > 0.0
    ensures amount <= Cap(b) <==> amount <= b.risk && amount <= b.daily && amount <= b.exposure && amount <= b.funds
  {
  }

  /** With everything known, the cap is the largest positive amount within all four limits. */
  lemma CapIsLargest(i: Inputs, amount: real)
    requires Complete(i) && amount > 0.0
    ensures amount <= Cap(AccountBudgets(i)) <==> WithinLimits(i, amount)
  {
    CapIsLeast(AccountBudgets(i), amount);
    RiskAndFundsIff(i, amount);
    DailyIff(i, amount);
    ExposureIff(i, amount);
  }

  /** A stake that is offered keeps to all four limits. */
  lemma OfferedStakeKeepsLimits(i: Inputs)
    requires Recommended(i) > 0.0
    ensures Complete(i) && WithinLimits(i, Recommended(i))
  {
    if !Complete(i) { FailsClosed(i); }
    StakeWithinCap(AccountBudgets(i), i.confidence, i.highVolatility);
    CapIsLargest(i, Recommended(i));
  }

  lemma MoneyGrows(x: real, y: real)
    requires 0.0 <= x <= y
    ensures Money(x) <= Money(y)
  {
    assert (x * PLACES).Floor <= (y * PLACES).Floor;
  }

  /** More confidence never lowers the stake, and high volatility never raises it. */
  lemma TemperingIsMonotone(b: Budgets, low: real, high: real, confidence: Raw, highVolatility: bool)
    requires low <= high
    ensures StakeFrom(b, Amount(low), highVolatility) <= StakeFrom(b, Amount(high), highVolatility)
    ensures StakeFrom(b, Missing, highVolatility) <= StakeFrom(b, confidence, highVolatility)
    ensures StakeFrom(b, confidence, true) <= StakeFrom(b, confidence, false)
  {
    MoneyGrows(Tempered(Cap(b), Amount(low), highVolatility), Tempered(Cap(b), Amount(high), highVolatility));
    MoneyGrows(Tempered(Cap(b), Missing, highVolatility), Tempered(Cap(b), confidence, highVolatility));
    MoneyGrows(Tempered(Cap(b), confidence, true), Tempered(Cap(b), confidence, false));
  }

  // ----- An order that has become a position is counted once -----

  lemma {:induction false} UncoveredIs(orders: seq<OpenOrder>, settled: set<string>, positions: seq<OpenPosition>)
    ensures forall o :: o in Uncovered(orders, settled, positions) <==>
              o in orders && !(o.orderId != "" && o.orderId in settled) && !Covered(o.orderId, positions)
  {
    if orders != [] {
      UncoveredIs(orders[1..], settled, positions);
      assert orders == [orders[0]] + orders[1..];
    }
  }

  /** Adding the open order of a position that is already held changes nothing that sizing looks at. */
  lemma PositionCountedOnce(i: Inputs, o: OpenOrder, loss: real)
    requires Covered(o.orderId, i.positions)
    ensures FactsFrom(i.(orders := [o] + i.orders), loss) == FactsFrom(i, loss)
  {
    var j := i.(orders := [o] + i.orders);
    assert j.orders[1..] == i.orders;
    assert Uncovered(j.orders, j.settledOrders, j.positions) == Uncovered(i.orders, i.settledOrders, i.positions);
  }

  // ----- A day of trades -----

  /** One trade: what sizing saw, the stake taken, and the profit it settled with. */
  datatype Trade = Trade(inputs: Inputs, stake: real, profit: real)

  /** Trades one at a time, each sized after the one before has settled, and losing at most its stake. */
  ghost predicate IsDay(settled: seq<Option<real>>, trades: seq<Trade>, sizing: Inputs -> real)
    decreases |trades|
  {
    trades == []
    || (var t := trades[0];
        && t.inputs.settled == settled && t.stake <= sizing(t.inputs) && -t.stake <= t.profit
        && IsDay(settled + [Some(t.profit)], trades[1..], sizing))
  }

  /** The profile's daily fraction does not change during the day. */
  ghost predicate SameFraction(trades: seq<Trade>, fraction: real) {
    forall k :: 0 <= k < |trades| ==> DailyFraction(trades[k].inputs) == fraction
  }

  function SettledAfter(settled: seq<Option<real>>, trades: seq<Trade>): seq<Option<real>>
    decreases |trades|
  {
    if trades == [] then settled else SettledAfter(settled + [Some(trades[0].profit)], trades[1..])
  }

  /** The loss a day of trades realizes. */
  function DayLoss(trades: seq<Trade>): real {
    RealizedLoss(SettledAfter([], trades))
  }

  /** The highest of some figure over what sizing saw, and at least zero. */
  function Highest(trades: seq<Trade>, f: Inputs -> real): (h: real)
    ensures h >= 0.0
  {
    if trades == [] then 0.0 else Max(f(trades[0].inputs), Highest(trades[1..], f))
  }

  function Peak(trades: seq<Trade>): real {
    Highest(trades, Balance)
  }

  lemma {:induction false} OneMoreLoss(settled: seq<Option<real>>, profit: real)
    ensures RealizedLoss(settled + [Some(profit)]) == RealizedLoss(settled) + if profit < 0.0 then -profit else 0.0
  {
    assert (settled + [Some(profit)])[..|settled|] == settled;
  }

  /** What the day's bound asks of an offered stake: to stay within what is left of the daily limit. */
  ghost predicate LeavesRoom(i: Inputs, offer: real, limit: real) {
    offer <= Max(0.0, limit - RealizedLoss(i.settled))
  }

  lemma TradeStaysWithin(t: Trade, limit: real)
    requires t.stake <= Max(0.0, limit - RealizedLoss(t.inputs.settled)) && -t.stake <= t.profit
    ensures RealizedLoss(t.inputs.settled + [Some(t.profit)]) <= Max(RealizedLoss(t.inputs.settled), limit)
  {
    OneMoreLoss(t.inputs.settled, t.profit);
  }

  /** Every offer of the day leaves the day's loss within the limit. */
  ghost predicate RoomUnder(trades: seq<Trade>, sizing: Inputs -> real, limit: real) {
    forall k :: 0 <= k < |trades| ==> LeavesRoom(trades[k].inputs, sizing(trades[k].inputs), limit)
  }

  lemma {:induction false} RoomUnderRest(trades: seq<Trade>, sizing: Inputs -> real, limit: real)
    requires trades != [] && RoomUnder(trades, sizing, limit)
    ensures RoomUnder(trades[1..], sizing, limit)
  {
    var rest := trades[1..];
    forall k | 0 <= k < |rest|
      ensures LeavesRoom(rest[k].inputs, sizing(rest[k].inputs), limit)
    {
      assert rest[k] == trades[k + 1];
    }
  }

  lemma {:induction false} DayFrom(settled: seq<Option<real>>, trades: seq<Trade>, limit: real, sizing: Inputs -> real)
    requires IsDay(settled, trades, sizing) && RoomUnder(trades, sizing, limit)
    requires RealizedLoss(settled) <= limit
    ensures RealizedLoss(SettledAfter(settled, trades)) <= limit
    decreases |trades|
  {
    if trades != [] {
      var t := trades[0];
      assert LeavesRoom(t.inputs, sizing(t.inputs), limit);
      TradeStaysWithin(t, limit);
      RoomUnderRest(trades, sizing, limit);
      DayFrom(settled + [Some(t.profit)], trades[1..], limit, sizing);
    }
  }

  lemma {:induction false} HighestBounds(trades: seq<Trade>, f: Inputs -> real, k: nat)
    requires k < |trades|
    ensures f(trades[k].inputs) <= Highest(trades, f)
  {
    if k > 0 { HighestBounds(trades[1..], f, k - 1); }
  }

  /** Offers within what is left of each trade's own limit keep the day's loss within the highest limit. */
  lemma {:induction false} DayUnderHighest(trades: seq<Trade>, sizing: Inputs -> real, limitOf: Inputs -> real)
    requires IsDay([], trades, sizing)
    requires forall k :: 0 <= k < |trades| ==>
               LeavesRoom(trades[k].inputs, sizing(trades[k].inputs), limitOf(trades[k].inputs))
    ensures DayLoss(trades) <= Highest(trades, limitOf)
  {
    var limit := Highest(trades, limitOf);
    forall k | 0 <= k < |trades| ensures LeavesRoom(trades[k].inputs, sizing(trades[k].inputs), limit) {
      HighestBounds(trades, limitOf, k);
    }
    DayFrom([], trades, limit, sizing);
  }

  lemma DailyBudgetLeavesRoom(i: Inputs)
    ensures AccountBudgets(i).daily <= Max(0.0, DailyLimit(i) - RealizedLoss(i.settled))
  {
  }

  lemma RecommendedLeavesRoom(i: Inputs)
    ensures LeavesRoom(i, Recommended(i), DailyLimit(i))
  {
    StakeWithinBudgets(i);
    DailyBudgetLeavesRoom(i);
  }

  /** However the trades go, the day's realized loss stays within the highest daily limit of the day. */
  lemma {:induction false} DayIsBounded(trades: seq<Trade>)
    requires IsDay([], trades, Recommended)
    ensures DayLoss(trades) <= Highest(trades, DailyLimit)
  {
    forall k | 0 <= k < |trades|
      ensures LeavesRoom(trades[k].inputs, Recommended(trades[k].inputs), DailyLimit(trades[k].inputs))
    {
      RecommendedLeavesRoom(trades[k].inputs);
    }
    DayUnderHighest(trades, Recommended, DailyLimit);
  }

  lemma LimitUnderPeak(i: Inputs, fraction: real, peak: real)
    requires DailyFraction(i) == fraction && Balance(i) <= peak
    ensures DailyLimit(i) <= peak * fraction
  {
    ScaleUp(DailyFraction(i), Balance(i), peak);
  }

  lemma {:induction false} HighestIsAtMost(trades: seq<Trade>, f: Inputs -> real, bound: real)
    requires bound >= 0.0 && forall k :: 0 <= k < |trades| ==> f(trades[k].inputs) <= bound
    ensures Highest(trades, f) <= bound
  {
    if trades != [] {
      var rest := trades[1..];
      assert forall k :: 0 <= k < |rest| ==> rest[k] == trades[k + 1];
      HighestIsAtMost(rest, f, bound);
    }
  }

  /** With one profile all day that limit is the daily fraction of the day's peak balance. */
  lemma {:induction false} LimitIsFractionOfPeak(trades: seq<Trade>, fraction: real)
    requires SameFraction(trades, fraction) && fraction >= 0.0
    ensures Highest(trades, DailyLimit) <= Peak(trades) * fraction
  {
    forall k | 0 <= k < |trades| ensures DailyLimit(trades[k].inputs) <= Peak(trades) * fraction {
      HighestBounds(trades, Balance, k);
      LimitUnderPeak(trades[k].inputs, fraction, Peak(trades));
    }
    ScaleUp(fraction, 0.0, Peak(trades));
    HighestIsAtMost(trades, DailyLimit, Peak(trades) * fraction);
  }

  /** Together: the day's realized loss stays within the daily fraction of the day's peak balance. */
  lemma {:induction false} DayWithinFractionOfPeak(trades: seq<Trade>, fraction: real)
    requires IsDay([], trades, Recommended) && SameFraction(trades, fraction) && fraction >= 0.0
    ensures DayLoss(trades) <= Peak(trades) * fraction
  {
    DayIsBounded(trades);
    LimitIsFractionOfPeak(trades, fraction);
  }

  // ----- The builder -----

  lemma TemperedBy(cap: real, multiplier: real, confidence: Raw, highVolatility: bool)
    requires multiplier
             == if confidence.Missing? || Decimal(confidence, 0.0) < 60.0 || highVolatility then 0.50
                else if Decimal(confidence, 0.0) < 75.0 then 0.75 else 1.00
    ensures Min(cap * multiplier, cap) == Tempered(cap, confidence, highVolatility)
  {
  }

  method TemperStake(recommended: real, confidence: Raw, highVolatility: bool) returns (adjusted: real)
    ensures adjusted == Tempered(recommended, confidence, highVolatility)
  {
    var value := Decimal(confidence, 0.0);
    var multiplier := 1.00;
    if confidence.Missing? || value < 60.0 {
      multiplier := 0.50;
    } else if value < 75.0 {
      multiplier := 0.75;
    }
    if highVolatility {
      multiplier := Min(multiplier, 0.50);
    }
    TemperedBy(recommended, multiplier, confidence, highVolatility);
    adjusted := Min(recommended * multiplier, recommended);
  }

  /** Available funds, if the broker's figures give them. */
  method MeasureFunds(i: Inputs) returns (funds: Option<real>)
    ensures funds == if FundsKnown(i) then Some(Funds(i)) else None
  {
    var q := QuoteOf(i.source);
    if !q.freeMargin.Missing? {
      funds := Some(Max(0.0, Decimal(q.freeMargin, 0.0)));
    } else if !q.balance.Missing? && !q.margin.Missing? {
      funds := Some(Max(0.0, Decimal(q.balance, 0.0) - Decimal(q.margin, 0.0)));
    } else {
      funds := None;
    }
  }

  method ComputeBudgets(f: Facts, p: Profile) returns (b: Budgets)
    ensures b == BudgetsOf(f, p)
  {
    var risk, daily, exposure, funds := 0.0, 0.0, 0.0, 0.0;
    if f.balance.Some? {
      var balance := f.balance.value;
      risk := balance * Max(0.0, Decimal(p.riskPerTrade, 0.02));
      var dailyLimit := balance * Max(0.0, Decimal(p.dailyLoss, 0.04));
      if f.realizedLoss.Some? {
        daily := Max(0.0, dailyLimit - f.realizedLoss.value);
      }
      var exposureLimit := balance * Max(0.0, Decimal(p.exposure, 0.35));
      if f.openStake.Some? {
        exposure := Max(0.0, exposureLimit - f.openStake.value);
      }
    }
    if f.funds.Some? {
      funds := f.funds.value;
    }
    b := Budgets(risk, daily, exposure, funds);
  }

  /** The figures sizing needs, gathered query by query. */
  method GatherFacts(i: Inputs) returns (f: Facts, loss: real)
    ensures loss == RealizedLoss(i.settled) && f == FactsFrom(i, loss)
  {
    var q := QuoteOf(i.source);
    var balance := if q.balance.Missing? then None else Some(Decimal(q.balance, 0.0));
    var funds := MeasureFunds(i);
    loss := SumLosses(i.settled);
    var realizedLoss := if None in i.settled then None else Some(loss);
    var stated, positionStakes := SumPositions(i.positions);
    var positive, orderStakes := SumOrders(i.orders, i.settledOrders, i.positions);
    var openStake := if stated && positive then Some(positionStakes + orderStakes) else None;
    f := Facts(balance, funds, realizedLoss, openStake);
  }

  /** How much of the largest allowed amount is offered: all of it only when confidence is high and markets are calm. */
  function ShareOf(confidence: Raw, highVolatility: bool): real {
    match confidence
    case Amount(c) => if c < 60.0 || highVolatility then 0.5 else if c < 75.0 then 0.75 else 1.0
    case _ => 0.5
  }

  /**
    The stake is a whole number of units of the eighth place, and the largest that is at most this share of every
    amount within the limits.
   */
  ghost predicate IsLargestShare(i: Inputs, stake: real, share: real)
    requires share > 0.0
  {
    && stake * 100000000.0 == (stake * 100000000.0).Floor as real
    && (stake > 0.0 ==> WithinLimits(i, stake / share))
    && forall amount :: amount > 0.0 && WithinLimits(i, amount) ==> share * amount < stake + 0.00000001
  }

  lemma MoneyIsWhole(x: real)
    requires x >= 0.0
    ensures Money(x) * 100000000.0 == (Money(x) * 100000000.0).Floor as real
  {
    var k := (x * PLACES).Floor;
    assert Money(x) * 100000000.0 == k as real;
  }

  lemma TemperedIsShare(cap: real, confidence: Raw, highVolatility: bool)
    requires cap >= 0.0
    ensures Tempered(cap, confidence, highVolatility) == ShareOf(confidence, highVolatility) * cap
  {
  }

  lemma ShareBelow(share: real, amount: real, cap: real)
    requires share > 0.0 && amount <= cap
    ensures share * amount <= share * cap
  {
  }

  lemma StakeOfCap(share: real, stake: real, cap: real)
    requires share == 0.5 || share == 0.75 || share == 1.0
    requires 0.0 < stake <= share * cap
    ensures 0.0 < stake / share <= cap
  {
  }

  /** Truncated to the eighth place, the share of the cap is the largest. */
  lemma {:induction false} TruncatedIsLargest(i: Inputs, cap: real, share: real, tempered: real, stake: real)
    requires Complete(i) && cap == Cap(AccountBudgets(i)) && tempered == share * cap && stake == Money(tempered)
    requires tempered >= 0.0 && (share == 0.5 || share == 0.75 || share == 1.0)
    ensures IsLargestShare(i, stake, share)
  {
    MoneyTruncates(tempered);
    MoneyIsWhole(tempered);
    StakeIsAllowed(i, cap, share, stake);
    forall amount | amount > 0.0 && WithinLimits(i, amount) ensures share * amount < stake + 0.00000001 {
      ShareOfAllowed(i, cap, share, amount);
    }
  }

  lemma StakeIsAllowed(i: Inputs, cap: real, share: real, stake: real)
    requires Complete(i) && cap == Cap(AccountBudgets(i)) && stake <= share * cap
    requires share == 0.5 || share == 0.75 || share == 1.0
    ensures stake > 0.0 ==> WithinLimits(i, stake / share)
  {
    if stake > 0.0 {
      StakeOfCap(share, stake, cap);
      CapIsLargest(i, stake / share);
    }
  }

  lemma ShareOfAllowed(i: Inputs, cap: real, share: real, amount: real)
    requires Complete(i) && cap == Cap(AccountBudgets(i)) && share > 0.0 && amount > 0.0 && WithinLimits(i, amount)
    ensures share * amount <= share * cap
  {
    CapIsLargest(i, amount);
    ShareBelow(share, amount, cap);
  }

  /**
    What the offered stake means: zero while anything is unknown, within all four limits, and otherwise the share that
    confidence and volatility leave of the largest amount within the limits.
   */
  ghost predicate StakeMeans(i: Inputs, stake: real) {
    && stake >= 0.0
    && (!Complete(i) ==> stake == 0.0)
    && (stake > 0.0 ==> WithinLimits(i, stake))
    && (Complete(i) ==> IsLargestShare(i, stake, ShareOf(i.confidence, i.highVolatility)))
  }

  lemma {:induction false} ShareIsRecommended(i: Inputs)
    requires Complete(i)
    ensures IsLargestShare(i, Recommended(i), ShareOf(i.confidence, i.highVolatility))
  {
    var cap := Cap(AccountBudgets(i));
    var tempered := Tempered(cap, i.confidence, i.highVolatility);
    TemperedIsShare(cap, i.confidence, i.highVolatility);
    TruncatedIsLargest(i, cap, ShareOf(i.confidence, i.highVolatility), tempered, Money(tempered));
  }

  lemma {:induction false} RecommendedMeans(i: Inputs)
    ensures StakeMeans(i, Recommended(i))
  {
    StakeWithinBudgets(i);
    if !Complete(i) { FailsClosed(i); }
    if Recommended(i) > 0.0 { OfferedStakeKeepsLimits(i); }
    if Complete(i) { ShareIsRecommended(i); }
  }

  method BuildAccountRiskContext(i: Inputs) returns (c: Context)
    ensures StakeMeans(i, c.recommendedStake) && c.recommendedStake == Recommended(i)
    ensures c.complete <==> Complete(i)
    ensures c.budgets == AccountBudgets(i) && c.realizedLoss == RealizedLoss(i.settled) && c.openStake == OpenStake(i)
  {
    var f, realizedLoss := GatherFacts(i);
    var budgets := ComputeBudgets(f, i.profile);
    var stake := Max(0.0, Min(Min(Min(budgets.risk, budgets.daily), budgets.exposure), budgets.funds));
    var adjusted := TemperStake(stake, i.confidence, i.highVolatility);
    RecommendedMeans(i);
    c := Context(Money(adjusted), budgets, realizedLoss, if f.openStake.Some? then f.openStake.value else 0.0,
                 f.balance.Some? && f.funds.Some? && f.realizedLoss.Some? && f.openStake.Some?);
  }
}
