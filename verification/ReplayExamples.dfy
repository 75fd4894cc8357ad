/** Four small replays, one pair on 30-minute candles, in which the documented expectations fail. */
module ReplayExamples {
  import opened Arithmetic
  import opened Common
  import opened Replay
  import opened ReplayCausality
  import opened ReplayExits
  import opened ReplayMoney
  import opened ReplayOrders
  import opened Sums
  import Risk
  import RiskFacts

  const HALF_HOUR: Time := 30 * MINUTE

  /** Candle `k` of the pair. */
  function HalfHour(k: nat, open: real, high: real, low: real, close: real): Candle {
    Candle(0, k * HALF_HOUR, (k + 1) * HALF_HOUR, open, high, low, close)
  }

  const FIRST: Candle := HalfHour(0, 100.0, 100.0, 100.0, 100.0)
  const SECOND: Candle := HalfHour(1, 100.0, 105.0, 95.0, 100.0)
  const THIRD: Candle := HalfHour(2, 106.0, 107.0, 105.0, 106.0)

  /** A BUY at the close of the first candle, volatile enough for the widest stop. */
  function BuyFirst(confidence: real): Signal {
    Signal(0, HALF_HOUR, Risk.BUY, confidence, 100.0)
  }

  function Signals(confidence: real): SignalIndex {
    map[(0, HALF_HOUR) := BuyFirst(confidence)]
  }

  function Rules(riskPct: real, positionPct: real, exposurePct: real, minScale: real): Risk.RiskConfig {
    Risk.RiskConfig(riskPct, positionPct, exposurePct, 2, 0.03, 3, 120, 0.5, minScale, 65, 1.0, 0.01, 0.08, false, 0, 0.0)
  }

  function Setup(feeRate: real, rules: Risk.RiskConfig): Config {
    Config(1000.0, feeRate, 0.0, 0.08, rules)
  }

  // ---------------------------------------------------------- first candle

  lemma FlatAccount(cfg: Config, s: State, now: Time)
    requires s.positions == map[] && s.pending == map[] && s.trades == [] && s.cash > 0.0
    ensures AccountState(cfg, s, now) == Risk.AccountState(s.cash, s.cash, {}, 0.0, 0.0, 0, None, map[])
  {
    assert MarkValues(cfg, s) == map[] && ReservedCash(cfg, s) == map[];
    assert PositionStakes(s) == map[] && PendingStakes(s) == map[];
    assert PendingBuys(s) == {};
    assert Over(0.0, s.cash) == 0.0;
  }

  lemma WidestStop(rules: Risk.RiskConfig)
    requires rules.atrStopMultiplier == 1.0 && rules.minStopLossPct == 0.01 && rules.maxStopLossPct == 0.08
    ensures Risk.StopDistance(100.0, 100.0, rules) == 0.08
  {
    assert Over(100.0, 100.0) == 1.0 && Times(1.0, 1.0) == 1.0;
  }

  function FirstSize(rules: Risk.RiskConfig, confidence: real): real {
    Risk.PositionSize(Over(Times(1000.0, rules.riskPerTradePct), 0.08), Times(1000.0, rules.maxPositionPct), 1000.0,
                      Risk.ConfidenceScale(confidence, rules))
  }

  /** A flat account of 1000 approves the signal when its size fits the exposure cap and the cash. */
  lemma FlatBuyIsApproved(r: real, m: real, e: real, minScale: real, confidence: real, view: Risk.SignalView, now: Time)
    requires view.action == Risk.BUY && view.confidence == confidence >= 0.5 && view.candleTs == now
    requires view.price == 100.0 && view.atr14 == 100.0
    requires FirstSize(Rules(r, m, e, minScale), confidence) <= Times(e, 1000.0)
    requires FirstSize(Rules(r, m, e, minScale), confidence) <= 1000.0
    ensures var account := Risk.AccountState(1000.0, 1000.0, {}, 0.0, 0.0, 0, None, map[]);
            var d := Risk.Evaluate(view, account, Rules(r, m, e, minScale), now, false, false, NO_EXPECTANCY);
            && d.Success? && d.value.approved && !d.value.autoTripKillswitch
            && d.value.sizing.Some? && d.value.sizing.value.positionSize == FirstSize(Rules(r, m, e, minScale), confidence)
  {
    hide Times, Over, Risk.PositionSize, Risk.ConfidenceScale, Risk.StopDistance, Risk.FirstViolation;
    var rules := Rules(r, m, e, minScale);
    var account := Risk.AccountState(1000.0, 1000.0, {}, 0.0, 0.0, 0, None, map[]);
    WidestStop(rules);
    EvaluateRaisesIff(view, account, rules, now, false, false);
    RiskFacts.EvaluateApprovedIff(view, account, rules, now, false, false, NO_EXPECTANCY);
    RiskFacts.KillSwitchDominates(view, account, rules, now, false, false, NO_EXPECTANCY);
    assert |{} + {view.symbol}| == 1;
  }

  /** After the first candle: the BUY waits, nothing else happened. */
  ghost predicate Waiting(t: State, size: real) {
    && t.cash == 1000.0 && t.positions == map[] && t.trades == [] && !t.killswitch
    && t.pending == map[0 := BuyOrder(HALF_HOUR, size)]
    && ApprovedBuys(t.decisions) == 1
  }

  lemma FirstCandle(fee: real, r: real, m: real, e: real, minScale: real, confidence: real) returns (t: State)
    requires 0.0 <= fee < 1.0 && confidence >= 0.5
    requires FirstSize(Rules(r, m, e, minScale), confidence) <= Times(e, 1000.0)
    requires FirstSize(Rules(r, m, e, minScale), confidence) <= 1000.0
    ensures AllValid([FIRST])
    ensures Run(Setup(fee, Rules(r, m, e, minScale)), Signals(confidence), [FIRST]) == Success(t)
    ensures Waiting(t, FirstSize(Rules(r, m, e, minScale), confidence))
  {
    hide Times, Over, FirstSize, AccountState, Equity, Risk.Evaluate;
    var cfg := Setup(fee, Rules(r, m, e, minScale));
    var s := Init(cfg).(lastPrices := map[0 := 100.0]);
    FlatAccount(cfg, s, HALF_HOUR);
    FlatBuyIsApproved(r, m, e, minScale, confidence, View(FIRST, BuyFirst(confidence)), HALF_HOUR);
    assert [FIRST][..0] == [];
    assert Settle(cfg, Init(cfg), FIRST) == Success(s);
    var d := Decided(cfg, Signals(confidence), s, FIRST);
    assert d.Success? && d.value.pending == map[0 := BuyOrder(HALF_HOUR, FirstSize(Rules(r, m, e, minScale), confidence))];
    t := Recorded(cfg, d.value, HALF_HOUR);
    ApprovedBuysAppend([], d.value.decisions[0]);
    assert [] + [d.value.decisions[0]] == d.value.decisions;
  }

  // ------------------------------------------------------------------ sizes

  /** Confidence at the minimum scales by the minimum scale, full confidence by one. */
  lemma ScaleEnds(r: real, m: real, e: real, minScale: real)
    ensures Risk.ConfidenceScale(0.5, Rules(r, m, e, minScale)) == minScale
    ensures Risk.ConfidenceScale(1.0, Rules(r, m, e, minScale)) == 1.0
  {
    assert Over(0.0, 0.5) == 0.0 && Over(0.5, 0.5) == 1.0;
    assert Times(1.0 - minScale, 0.0) == 0.0 && Times(1.0 - minScale, 1.0) == 1.0 - minScale;
  }

  lemma SizeAtCap(r: real, m: real, e: real, minScale: real, confidence: real, scale: real)
    requires 0.0 <= Times(1000.0, m) <= 1000.0 && Times(1000.0, m) <= Over(Times(1000.0, r), 0.08)
    requires Risk.ConfidenceScale(confidence, Rules(r, m, e, minScale)) == scale
    ensures FirstSize(Rules(r, m, e, minScale), confidence) == Times(Times(1000.0, m), scale)
  {
    hide Times, Over, Risk.ConfidenceScale;
  }

  lemma Numbers()
    ensures Times(1000.0, 0.01) == 10.0 && Over(10.0, 0.08) == 125.0
    ensures Times(1000.0, 0.1) == 100.0 && Over(100.0, 0.08) == 1250.0 && Times(1000.0, 1.0) == 1000.0
    ensures Times(100.0, 0.0) == 0.0 && Times(100.0, 1.0) == 100.0 && Times(100.0, -1.0) == -100.0
    ensures Times(0.2, 1000.0) == 200.0 && Times(1.0, 1000.0) == 1000.0
    ensures Times(0.0, 0.001) == 0.0 && Times(1000.0, 0.001) == 1.0
    ensures Times(100.0, 0.01) == 1.0 && Times(105.0, 0.01) == 1.05 && Times(106.0, 0.01) == 1.06
    ensures Times(100.0, 0.92) == 92.0 && Over(1.0, 100.0) == 0.01 && Times(106.0, 1.0) == 106.0
  {
  }

  // ----------------------------------------------------------------- candles

  lemma InOrder()
    ensures AllValid([FIRST]) && AllValid([FIRST, SECOND]) && AllValid([FIRST, SECOND, THIRD])
    ensures CheckOrdered([FIRST, SECOND]).None? && CheckOrdered([FIRST, SECOND, THIRD]).None?
    ensures Keyed(Signals(0.5)) && Keyed(Signals(1.0))
  {
    assert [FIRST][..0] == [] && [FIRST, SECOND][..1] == [FIRST];
    assert [FIRST, SECOND, THIRD][..2] == [FIRST, SECOND];
    assert CheckOrdered([FIRST]).None?;
    assert LastClose([FIRST], 0) == Some(HALF_HOUR);
    assert LastClose([FIRST, SECOND], 0) == Some(2 * HALF_HOUR);
  }

  /** Without a signal a candle decides nothing. */
  lemma QuietCandle(cfg: Config, confidence: real, s: State, c: Candle)
    requires c.closeTime != HALF_HOUR
    ensures Decided(cfg, Signals(confidence), s, c) == Success(s)
  {
  }

  // -------------------------------------------------------------------- runs

  /** A minimum size scale of zero and a signal of minimum confidence: the BUY is approved with stake zero,
      and the candle that fills it raises. */
  lemma ZeroStakeReplayRaises()
    ensures AllValid([FIRST, SECOND]) && CheckOrdered([FIRST, SECOND]).None?
    ensures Run(Setup(0.001, Rules(0.01, 0.1, 0.2, 0.0)), Signals(0.5), [FIRST, SECOND]).Failure?
  {
    hide Times, Over, FirstSize, Run, Step, Risk.Evaluate, Risk.ConfidenceScale;
    var cfg := Setup(0.001, Rules(0.01, 0.1, 0.2, 0.0));
    Numbers();
    InOrder();
    ScaleEnds(0.01, 0.1, 0.2, 0.0);
    SizeAtCap(0.01, 0.1, 0.2, 0.0, 0.5, 0.0);
    var t := FirstCandle(0.001, 0.01, 0.1, 0.2, 0.0, 0.5);
    assert [FIRST, SECOND][..1] == [FIRST];
    assert FillsNothing(cfg, t, SECOND);
    assert RaisesAt(cfg, Signals(0.5), [FIRST, SECOND], 1);
    RunRaisesIff(cfg, Signals(0.5), [FIRST, SECOND]);
  }

  /** A position cap of the whole equity and any fee: the approved BUY of the free balance is dropped. */
  lemma FullBalanceReplayDrops()
    ensures AllValid([FIRST, SECOND]) && CheckOrdered([FIRST, SECOND]).None?
    ensures var cfg := Setup(0.001, Rules(0.1, 1.0, 1.0, 1.0));
            && Run(cfg, Signals(1.0), [FIRST, SECOND]).Success?
            && Dropped(cfg, Signals(1.0), [FIRST, SECOND]) == 1
            && var s := Run(cfg, Signals(1.0), [FIRST, SECOND]).value;
               ApprovedBuys(s.decisions) == 1 && s.trades == [] && s.positions == map[] && s.pending == map[]
  {
    hide Times, Over, FirstSize, Risk.Evaluate, Risk.ConfidenceScale, Step, Settle;
    var cfg := Setup(0.001, Rules(0.1, 1.0, 1.0, 1.0));
    Numbers();
    InOrder();
    ScaleEnds(0.1, 1.0, 1.0, 1.0);
    SizeAtCap(0.1, 1.0, 1.0, 1.0, 1.0, 1.0);
    var t := FirstCandle(0.001, 0.1, 1.0, 1.0, 1.0, 1.0);
    assert [FIRST, SECOND][..1] == [FIRST] && [FIRST][..0] == [];
    DroppingCandle(t);
    assert Dropped(cfg, Signals(1.0), []) == 0;
    assert Dropped(cfg, Signals(1.0), [FIRST]) == 0;
  }

  lemma DroppingCandle(t: State)
    requires Waiting(t, 1000.0)
    ensures var cfg := Setup(0.001, Rules(0.1, 1.0, 1.0, 1.0));
            var u := Step(cfg, Signals(1.0), t, SECOND);
            && Drops(cfg, t, SECOND) && u.Success? && u.value.decisions == t.decisions
            && u.value.trades == [] && u.value.positions == map[] && u.value.pending == map[]
  {
    hide Times, Over, ProcessSignal, Equity;
    var cfg := Setup(0.001, Rules(0.1, 1.0, 1.0, 1.0));
    Numbers();
    QuietCandle(cfg, 1.0, Settle(cfg, t, SECOND).value, SECOND);
  }

  /** What the second candle's open makes of a stake, without fee or slippage. */
  function Held(stake: real): OpenPosition {
    OpenPosition(HALF_HOUR, 100.0, 100.0, Over(stake, 100.0), stake, 0.0, 92.0)
  }

  predicate Free(cfg: Config) {
    cfg.feeRate == 0.0 && cfg.slippageRate == 0.0 && cfg.staticStopLossPct == 0.08 && cfg.startingEquity > 0.0
  }

  lemma HeldIsOpened(cfg: Config, stake: real)
    requires Free(cfg)
    ensures Opened(cfg, SECOND, stake) == Held(stake) && Times(stake, 0.0) == 0.0
  {
    hide Times, Over;
    Numbers();
    Neutral(stake);
  }

  lemma Neutral(x: real)
    ensures Times(x, 0.0) == 0.0 && Times(x, 1.0) == x && Over(x, 1.0) == x
  {
  }

  /** Without slippage a price is its own fill and its own trigger. */
  lemma FreeFill(cfg: Config, price: real)
    requires Free(cfg)
    ensures SellFill(cfg, price) == price && Trigger(cfg, price) == price
  {
    hide Times, Over;
    Neutral(price);
  }

  lemma HeldReturn(cfg: Config, stake: real, price: real)
    requires Free(cfg) && stake != 0.0
    ensures Cost(Held(stake)) != 0.0 && Rate(cfg, Held(stake)) == 0.01
    ensures Times(Held(stake).amount, 1.0) != 0.0
    ensures NetReturnAtPrice(cfg, Held(stake), price) == Times(price, 0.01) - 1.0
  {
    hide Times, Over;
    Numbers();
    HeldIsOpened(cfg, stake);
    RateForm(cfg, Held(stake));
    ReturnIsLinear(cfg, Held(stake), price);
  }

  /** The position opens at 100 and survives: no stop at 92, no 10% by a high of 105. */
  lemma SecondCandle(cfg: Config, confidence: real, t: State, stake: real) returns (u: State)
    requires Free(cfg) && Waiting(t, stake) && stake != 0.0 && stake <= 1000.0
    ensures Step(cfg, Signals(confidence), t, SECOND) == Success(u)
    ensures u.positions == map[0 := Held(stake)] && u.pending == map[] && u.trades == [] && u.cash == 1000.0 - stake
  {
    hide Times, Over, ProcessSignal, Equity, NetReturnAtPrice, PriceForNetReturn, Opened, SellFill, Trigger;
    Numbers();
    HeldIsOpened(cfg, stake);
    HeldReturn(cfg, stake, 100.0);
    HeldReturn(cfg, stake, 105.0);
    var fill := PriceForNetReturn(cfg, Held(stake), 0.10);
    PriceInvertsReturn(cfg, Held(stake), 0.10, fill);
    HigherPriceHigherReturn(cfg, Held(stake), 105.0, fill);
    FreeFill(cfg, 100.0);
    FreeFill(cfg, fill);
    var filled := ExecutePending(cfg, t, SECOND).value;
    assert filled.positions == map[0 := Held(stake)] && filled.pending == map[];
    assert ApplySafetyExits(cfg, filled, SECOND) == Success(filled);
    var s := Settle(cfg, t, SECOND).value;
    QuietCandle(cfg, confidence, s, SECOND);
    u := Recorded(cfg, s, SECOND.closeTime);
  }

  /** The next candle opens at 106, half an hour later: 10% is due for that time, 5% at the candle's close. */
  lemma ThirdCandle(cfg: Config, u: State)
    requires Free(cfg) && u.positions == map[0 := Held(100.0)] && u.pending == map[]
    ensures Step(cfg, Signals(1.0), u, THIRD).Success?
    ensures ExecutePending(cfg, u, THIRD) == Success(u) && OpensBetweenTargets(cfg, u, THIRD)
  {
    hide Times, Over, ProcessSignal, Equity, NetReturnAtPrice, PriceForNetReturn, SellFill, Trigger;
    Numbers();
    HeldIsOpened(cfg, 100.0);
    HeldReturn(cfg, 100.0, 106.0);
    FreeFill(cfg, 106.0);
    var s := Settle(cfg, u, THIRD).value;
    QuietCandle(cfg, 1.0, s, THIRD);
  }

  /** So the trade nets 6% where 10% is due. */
  lemma UndercutReplay()
    ensures AllValid([FIRST, SECOND, THIRD]) && CheckOrdered([FIRST, SECOND, THIRD]).None?
    ensures var cfg := Setup(0.0, Rules(0.01, 0.1, 0.2, 1.0));
            && Run(cfg, Signals(1.0), [FIRST, SECOND, THIRD]).Success?
            && SomeUndercuts(Run(cfg, Signals(1.0), [FIRST, SECOND, THIRD]).value.trades)
  {
    hide Times, Over, FirstSize, Step, Risk.ConfidenceScale, ExecutePending, OpensBetweenTargets, SomeUndercuts;
    var cfg := Setup(0.0, Rules(0.01, 0.1, 0.2, 1.0));
    Numbers();
    InOrder();
    ScaleEnds(0.01, 0.1, 0.2, 1.0);
    SizeAtCap(0.01, 0.1, 0.2, 1.0, 1.0, 1.0);
    var t := FirstCandle(0.0, 0.01, 0.1, 0.2, 1.0, 1.0);
    var u := SecondCandle(cfg, 1.0, t, 100.0);
    ThirdCandle(cfg, u);
    assert [FIRST, SECOND, THIRD][..2] == [FIRST, SECOND] && [FIRST, SECOND][..1] == [FIRST];
    assert Run(cfg, Signals(1.0), [FIRST, SECOND]) == Success(u);
    assert OpensBetweenTargetsAt(cfg, Signals(1.0), [FIRST, SECOND, THIRD], 2);
    RunUndercutsIff(cfg, Signals(1.0), [FIRST, SECOND, THIRD]);
  }

  /** A negative minimum size scale, which the configuration accepts, buys a negative stake: money in hand
      for a position that owes. */
  lemma NegativeScaleBuysNegativeStake()
    ensures AllValid([FIRST, SECOND]) && CheckOrdered([FIRST, SECOND]).None?
    ensures var cfg := Setup(0.0, Rules(0.01, 0.1, 0.2, -1.0));
            && Run(cfg, Signals(0.5), [FIRST, SECOND]).Success?
            && var s := Run(cfg, Signals(0.5), [FIRST, SECOND]).value;
               s.positions == map[0 := Held(-100.0)] && s.cash == 1100.0
  {
    hide Times, Over, FirstSize, Step, Risk.ConfidenceScale;
    var cfg := Setup(0.0, Rules(0.01, 0.1, 0.2, -1.0));
    Numbers();
    InOrder();
    ScaleEnds(0.01, 0.1, 0.2, -1.0);
    SizeAtCap(0.01, 0.1, 0.2, -1.0, 0.5, -1.0);
    var t := FirstCandle(0.0, 0.01, 0.1, 0.2, -1.0, 0.5);
    var u := SecondCandle(cfg, 0.5, t, -100.0);
    assert [FIRST, SECOND][..1] == [FIRST];
  }
}
