/** Which configurations keep every replay solvent: the size scale of the least confident admissible signal
    decides, unless every entry is stopped out on its own candle. */
module ReplaySolvency {
  import opened Arithmetic
  import opened Common
  import opened Replay
  import opened ReplayExamples
  import opened ReplayExits
  import opened ReplayMoney
  import ReplayCausality
  import Risk
  import RiskFacts

  /** What the signal schema and the signal index guarantee. */
  predicate ValidSignals(signals: SignalIndex) {
    && ReplayCausality.Keyed(signals)
    && forall key :: key in signals ==> 0.0 <= signals[key].confidence <= 1.0 && signals[key].atr14 > 0.0
  }

  /** The size scale of the least confidence that a valid signal can have and still be admitted. */
  function LowestScale(config: Risk.RiskConfig): real {
    Risk.ConfidenceScale(Max(config.minConfidence, 0.0), config)
  }

  /** An entry's stop price is not below the open it fills at. */
  predicate StopsAtOnce(cfg: Config) {
    Times(1.0 + cfg.slippageRate, 1.0 - cfg.staticStopLossPct) >= 1.0
  }

  /** An empty account passes every gate but the one on confidence. */
  predicate GatesOpen(config: Risk.RiskConfig) {
    && config.riskPerTradePct > 0.0 && config.maxPositionPct > 0.0 && config.minStopLossPct > 0.0
    && config.maxTotalExposurePct >= 0.0 && config.maxOpenPositions >= 1
    && config.maxDailyLossPct > 0.0 && config.consecutiveLossLimit >= 1 && config.signalMaxAgeMinutes >= 0
  }

  // ------------------------------------------------------- scales that never go below zero

  lemma LerpAboveStart(scale: real, low: real, ratio: real)
    requires 0.0 <= low <= ratio <= 1.0 && Risk.Lerp(scale, low) >= 0.0
    ensures Risk.Lerp(scale, ratio) >= 0.0
  {
    if scale <= 1.0 {
      TimesRight(1.0 - scale, low, ratio);
    } else {
      TimesRight(scale - 1.0, ratio, 1.0);
      assert Times(scale - 1.0, ratio) == -Times(1.0 - scale, ratio) && Times(scale - 1.0, 1.0) == scale - 1.0;
    }
  }

  lemma LowestScaleDecides(config: Risk.RiskConfig, signals: SignalIndex)
    requires ValidSignals(signals) && LowestScale(config) >= 0.0
    ensures ScalesNonNegative(config, signals)
  {
    var low := Max(config.minConfidence, 0.0);
    var range := 1.0 - config.minConfidence;
    forall key | key in signals && signals[key].confidence >= config.minConfidence
      ensures Risk.ConfidenceScale(signals[key].confidence, config) >= 0.0
    {
      if range > 0.0 {
        var confidence := signals[key].confidence;
        LowerRatio(low - config.minConfidence, confidence - config.minConfidence, range);
        LerpAboveStart(config.minConfidenceSizeScale, Clamp(Over(low - config.minConfidence, range), 0.0, 1.0),
                       Clamp(Over(confidence - config.minConfidence, range), 0.0, 1.0));
      }
    }
  }

  lemma LowerRatio(a: real, b: real, range: real)
    requires a <= b && range > 0.0
    ensures Over(a, range) <= Over(b, range)
  {
    OverTimes(a, range);
    OverAtLeast(b, range, Over(a, range));
  }

  // ---------------------------------------------------- entries stopped out on their own candle

  /** What such an entry leaves of its cost. */
  lemma StoppedEntryPays(cfg: Config, c: Candle, stake: real)
    requires ValidConfig(cfg) && ValidCandle(c) && StopsAtOnce(cfg)
    ensures var p := Opened(cfg, c, stake);
            && c.low <= p.stopPrice
            && (stake >= 0.0 ==> Proceeds(cfg, p, SellFill(cfg, p.stopPrice)) >= 0.0)
            && (stake < 0.0 ==> Proceeds(cfg, p, SellFill(cfg, p.stopPrice)) >= Cost(p))
  {
    hide Times, Over;
    var p := Opened(cfg, c, stake);
    var up, down := 1.0 + cfg.slippageRate, 1.0 - cfg.staticStopLossPct;
    var kept := Times(down, 1.0 - cfg.slippageRate);
    StopAbove(c.open, up, down);
    TimesSign(c.open, up);
    StoppedShare(stake, p.entryPrice, down, 1.0 - cfg.slippageRate);
    TimesShrink(down, 1.0 - cfg.slippageRate);
    TimesShrink(kept, 1.0 - cfg.feeRate);
    ProceedsForm(cfg, p, SellFill(cfg, p.stopPrice));
    StakeShare(stake, kept, 1.0 - cfg.feeRate);
    var share := Times(kept, 1.0 - cfg.feeRate);
    TimesSign(stake, share);
    TimesSign(-stake, cfg.feeRate);
    NegatedShare(stake, share, cfg.feeRate);
  }

  lemma StopAbove(open: real, up: real, down: real)
    requires open > 0.0 && Times(up, down) >= 1.0
    ensures Times(Times(open, up), down) >= open
  {
    TimesRight(open, 1.0, Times(up, down));
    assert Times(Times(open, up), down) == Times(open, Times(up, down)) && Times(open, 1.0) == open;
  }

  lemma StoppedShare(stake: real, entry: real, down: real, net: real)
    requires entry > 0.0
    ensures Times(Over(stake, entry), Times(Times(entry, down), net)) == Times(stake, Times(down, net))
  {
    OverTimes(stake, entry);
    var q := Over(stake, entry);
    assert Times(q, Times(Times(entry, down), net)) == Times(Times(q, entry), Times(down, net));
  }

  lemma StakeShare(stake: real, kept: real, net: real)
    ensures Times(Times(stake, kept), net) == Times(stake, Times(kept, net))
  {
  }

  /** A share of at most one of a negative stake is not below the stake. */
  lemma NegatedShare(stake: real, share: real, fee: real)
    requires 0.0 <= share <= 1.0
    ensures Times(-stake, fee) == -Times(stake, fee)
    ensures stake < 0.0 ==> Times(stake, share) >= stake
  {
    if stake < 0.0 {
      TimesShrink(-stake, share);
      assert Times(-stake, share) == -Times(stake, share);
    }
  }

  /** Nothing is held, and cash and equity were never negative. */
  predicate Empty(s: State) {
    && s.positions == map[] && s.cash >= 0.0
    && (forall k :: k in s.lastPrices ==> s.lastPrices[k] > 0.0)
    && (forall i :: 0 <= i < |s.equityCurve| ==> s.equityCurve[i].equity >= 0.0)
  }

  lemma SettleStaysEmpty(cfg: Config, s: State, c: Candle)
    requires ValidConfig(cfg) && ValidCandle(c) && StopsAtOnce(cfg) && Empty(s)
    requires Settle(cfg, s, c).Success?
    ensures Empty(Settle(cfg, s, c).value)
  {
    hide Times, Over, Opened, Proceeds, SellFill;
    if Due(s, c) && s.pending[c.symbol].BuyOrder? {
      StoppedEntryPays(cfg, c, s.pending[c.symbol].stake);
      OpenedCost(cfg, c, s.pending[c.symbol].stake);
    }
  }

  lemma OpenedCost(cfg: Config, c: Candle, stake: real)
    requires ValidConfig(cfg) && ValidCandle(c)
    ensures Cost(Opened(cfg, c, stake)) == stake + Times(stake, cfg.feeRate)
  {
  }

  lemma {:induction false} StoppedReplayStaysEmpty(cfg: Config, signals: SignalIndex, candles: seq<Candle>)
    requires ValidConfig(cfg) && AllValid(candles) && StopsAtOnce(cfg)
    requires Run(cfg, signals, candles).Success?
    ensures Empty(Run(cfg, signals, candles).value)
  {
    hide Settle, ProcessSignal, StopsAtOnce;
    if candles != [] {
      var earlier := candles[..|candles| - 1];
      var c := candles[|candles| - 1];
      StoppedReplayStaysEmpty(cfg, signals, earlier);
      var s := Run(cfg, signals, earlier).value;
      SettleStaysEmpty(cfg, s, c);
      var settled := Settle(cfg, s, c).value;
      SignalKeepsMoney(cfg, signals, settled, c);
      assert MarkValues(cfg, Decided(cfg, signals, settled, c).value) == map[];
    }
  }

  // ------------------------------------------------------------- a replay that is overdrawn

  const LEVEL: Candle := HalfHour(1, 100.0, 100.0, 100.0, 100.0)

  function Jump(price: real): Candle {
    HalfHour(2, price, price, price, price)
  }

  function Alike(confidence: real): Risk.SignalView {
    View(FIRST, BuyFirst(confidence))
  }

  /** The empty account admits the least confident signal, at a negative size. */
  lemma DebtIsApproved(cfg: Config, confidence: real)
    requires ValidConfig(cfg) && GatesOpen(cfg.risk)
    requires confidence >= cfg.risk.minConfidence && Risk.ConfidenceScale(confidence, cfg.risk) < 0.0
    ensures var account := Risk.AccountState(cfg.startingEquity, cfg.startingEquity, {}, 0.0, 0.0, 0, None, map[]);
            var d := Risk.Evaluate(Alike(confidence), account, cfg.risk, HALF_HOUR, false, false, NO_EXPECTANCY);
            && d.Success? && d.value.approved && d.value.sizing.Some? && d.value.sizing.value.positionSize < 0.0
  {
    hide Times, Over, Risk.PositionSize, Risk.ConfidenceScale, Risk.FirstViolation;
    var e := cfg.startingEquity;
    var account := Risk.AccountState(e, e, {}, 0.0, 0.0, 0, None, map[]);
    var distance := Risk.StopDistance(100.0, 100.0, cfg.risk);
    TimesSign(e, cfg.risk.riskPerTradePct);
    TimesSign(e, cfg.risk.maxPositionPct);
    TimesSign(cfg.risk.maxTotalExposurePct, e);
    OverSign(Times(e, cfg.risk.riskPerTradePct), distance);
    RiskFacts.NegativeSizeIff(Over(Times(e, cfg.risk.riskPerTradePct), distance), Times(e, cfg.risk.maxPositionPct), e,
                              Risk.ConfidenceScale(confidence, cfg.risk));
    RiskFacts.EvaluateApprovedIff(Alike(confidence), account, cfg.risk, HALF_HOUR, false, false, NO_EXPECTANCY);
    assert |{} + {Alike(confidence).symbol}| == 1;
  }

  /** The first candle queues it. */
  lemma DebtIsQueued(cfg: Config, confidence: real) returns (s: State, stake: real)
    requires ValidConfig(cfg) && GatesOpen(cfg.risk)
    requires confidence >= cfg.risk.minConfidence && Risk.ConfidenceScale(confidence, cfg.risk) < 0.0
    ensures AllValid([FIRST]) && Run(cfg, Signals(confidence), [FIRST]) == Success(s)
    ensures stake < 0.0 && s.cash == cfg.startingEquity && s.positions == map[]
    ensures s.pending == map[0 := BuyOrder(HALF_HOUR, stake)]
  {
    hide Times, Over, AccountState, Equity, Risk.Evaluate, Risk.ConfidenceScale;
    var t := Init(cfg).(lastPrices := map[0 := 100.0]);
    FlatAccount(cfg, t, HALF_HOUR);
    DebtIsApproved(cfg, confidence);
    assert [FIRST][..0] == [];
    assert Settle(cfg, Init(cfg), FIRST) == Success(t);
    var d := Decided(cfg, Signals(confidence), t, FIRST);
    stake := EntryDecision(cfg, t, FIRST, BuyFirst(confidence)).value.sizing.value.positionSize;
    assert d.Success? && d.value.pending == map[0 := BuyOrder(HALF_HOUR, stake)];
    s := Recorded(cfg, d.value, HALF_HOUR);
  }

  /** A position that survives its own candle: its stop lies below the open, and the open misses every target. */
  lemma EntrySurvives(cfg: Config, stake: real)
    requires ValidConfig(cfg) && !StopsAtOnce(cfg) && stake != 0.0
    ensures var p := Opened(cfg, LEVEL, stake);
            && Shaped(cfg, p) && Cost(p) != 0.0 && p.stopPrice < 100.0 <= p.entryPrice
            && NetReturnAtPrice(cfg, p, SellFill(cfg, 100.0)) <= 0.0
  {
    hide Times, Over;
    var p := Opened(cfg, LEVEL, stake);
    var up, down := 1.0 + cfg.slippageRate, 1.0 - cfg.staticStopLossPct;
    OpenedIsShaped(cfg, LEVEL, stake);
    RateForm(cfg, p);
    HundredTimes(up, down, 1.0 - cfg.slippageRate);
    EntryReturnsNothing(cfg, p);
    ReturnIsLinear(cfg, p, SellFill(cfg, 100.0));
    TimesMonotone(SellFill(cfg, 100.0), p.entryPrice, Rate(cfg, p));
  }

  lemma HundredTimes(up: real, down: real, net: real)
    requires Times(up, down) < 1.0 && up >= 1.0 && net <= 1.0
    ensures Times(Times(100.0, up), down) < 100.0 <= Times(100.0, up) && Times(100.0, net) <= 100.0
  {
    assert Times(Times(100.0, up), down) == Times(100.0, Times(up, down));
  }

  /** Leaving at the entry price never pays. */
  lemma EntryReturnsNothing(cfg: Config, p: OpenPosition)
    requires ValidConfig(cfg) && Shaped(cfg, p) && p.stake != 0.0
    ensures Cost(p) != 0.0 && Rate(cfg, p) > 0.0 && Times(p.entryPrice, Rate(cfg, p)) <= 1.0
  {
    RateForm(cfg, p);
    var net, gross := 1.0 - cfg.feeRate, 1.0 + cfg.feeRate;
    EntryRatio(p.entryPrice, net, gross);
  }

  lemma EntryRatio(entry: real, net: real, gross: real)
    requires entry > 0.0 && 0.0 < net <= gross && Times(entry, gross) > 0.0
    ensures Times(entry, Over(net, Times(entry, gross))) <= 1.0
  {
    var base := Times(entry, gross);
    TimesRight(entry, net, gross);
    OverTimes(Times(entry, net), base);
    OverTimes(net, base);
    var q := Over(net, base);
    assert Times(Times(entry, q), base) == Times(entry, Times(q, base));
    OverAtLeast(base, base, Times(entry, q));
    assert Over(base, base) == 1.0;
  }

  /** The next candle opens a waiting entry it can pay for, and holds it. */
  lemma EntryIsOpened(cfg: Config, signals: SignalIndex, s: State, stake: real) returns (t: State)
    requires ValidConfig(cfg) && !StopsAtOnce(cfg) && stake != 0.0 && Cost(Opened(cfg, LEVEL, stake)) <= s.cash
    requires s.positions == map[] && s.pending == map[0 := BuyOrder(HALF_HOUR, stake)]
    requires (LEVEL.symbol, LEVEL.closeTime) !in signals
    ensures Step(cfg, signals, s, LEVEL) == Success(t)
    ensures t.positions == map[0 := Opened(cfg, LEVEL, stake)] && t.pending == map[]
    ensures t.cash == s.cash - Cost(Opened(cfg, LEVEL, stake))
    ensures t.trades == s.trades && t.killswitch == s.killswitch && t.lastPrices == s.lastPrices[0 := 100.0]
  {
    hide Times, Over, ProcessSignal, Equity, NetReturnAtPrice, PriceForNetReturn, Opened, SellFill, Trigger, StopsAtOnce;
    var p := Opened(cfg, LEVEL, stake);
    EntrySurvives(cfg, stake);
    OpenedCost(cfg, LEVEL, stake);
    OpenedAtLevel(cfg, stake);
    RateForm(cfg, p);
    TriggerAboveOpen(cfg, p, LEVEL, 0.10);
    var filled := ExecutePending(cfg, s, LEVEL).value;
    assert filled.positions == map[0 := p] && filled.pending == map[];
    assert ApplySafetyExits(cfg, filled, LEVEL) == Success(filled);
    t := Recorded(cfg, Settle(cfg, s, LEVEL).value, LEVEL.closeTime);
  }

  lemma DebtCostsLess(cfg: Config, stake: real)
    requires ValidConfig(cfg) && stake < 0.0
    ensures Cost(Opened(cfg, LEVEL, stake)) < 0.0
  {
    TimesSign(-stake, cfg.feeRate);
    NegatedShare(stake, 0.0, cfg.feeRate);
  }

  lemma OpenedAtLevel(cfg: Config, stake: real)
    requires ValidConfig(cfg)
    ensures Opened(cfg, LEVEL, stake).openedAt == HALF_HOUR && Opened(cfg, LEVEL, stake).stake == stake
  {
  }

  /** The price at whose open the position returns `target`, far above its entry. */
  lemma JumpPrice(cfg: Config, p: OpenPosition, target: real) returns (price: real)
    requires ValidConfig(cfg) && Shaped(cfg, p) && p.stake != 0.0 && target > 0.0 && Cost(p) != 0.0
    ensures price > p.entryPrice && NetReturnAtPrice(cfg, p, SellFill(cfg, price)) == target
  {
    hide Times, Over;
    RateForm(cfg, p);
    EntryReturnsNothing(cfg, p);
    var fill := PriceForNetReturn(cfg, p, target);
    PriceInvertsReturn(cfg, p, target, fill);
    ReturnIsLinear(cfg, p, p.entryPrice);
    HigherPriceHigherReturn(cfg, p, p.entryPrice, fill);
    price := Trigger(cfg, fill);
    OverTimes(fill, 1.0 - cfg.slippageRate);
    OverAtLeast(fill, 1.0 - cfg.slippageRate, fill);
    TimesRight(fill, 1.0 - cfg.slippageRate, 1.0);
    One(fill);
  }

  lemma One(x: real)
    ensures Times(x, 1.0) == x
  {
  }

  /** At such an open the position is bought back for more than the account holds. */
  lemma DebtIsCalled(cfg: Config, confidence: real, t: State, stake: real) returns (price: real, u: State)
    requires ValidConfig(cfg) && !StopsAtOnce(cfg) && stake < 0.0
    requires t.positions == map[0 := Opened(cfg, LEVEL, stake)] && t.pending == map[]
    requires t.cash == cfg.startingEquity - Cost(Opened(cfg, LEVEL, stake))
    ensures price > 0.0 && ValidCandle(Jump(price))
    ensures Step(cfg, Signals(confidence), t, Jump(price)) == Success(u) && u.cash < 0.0
  {
    hide Times, Over, ProcessSignal, Equity, NetReturnAtPrice, PriceForNetReturn, Opened, SellFill, Trigger, StopsAtOnce,
         Proceeds;
    var p := Opened(cfg, LEVEL, stake);
    EntrySurvives(cfg, stake);
    OpenedAtLevel(cfg, stake);
    DebtCostsLess(cfg, stake);
    var target := Over(cfg.startingEquity, -Cost(p)) + 1.0;
    OverSign(cfg.startingEquity, -Cost(p));
    price := JumpPrice(cfg, p, target);
    var c := Jump(price);
    var closed := ApplySafetyExits(cfg, t, c);
    assert closed == ClosePosition(cfg, t, 0, c.openTime, price, SellFill(cfg, price), Roi);
    NetIsGrossMinusFees(cfg, 0, p, c.openTime, price, SellFill(cfg, price), Roi);
    CalledDebt(cfg.startingEquity, Cost(p));
    var settled := Settle(cfg, t, c).value;
    QuietCandle(cfg, confidence, settled, c);
    u := Recorded(cfg, settled, c.closeTime);
  }

  lemma CalledDebt(equity: real, cost: real)
    requires cost < 0.0
    ensures Times(Over(equity, -cost) + 1.0, cost) == cost - equity
  {
    OverTimes(equity, -cost);
    var q := Over(equity, -cost);
    assert Times(q + 1.0, cost) == cost - Times(q, -cost);
  }

  lemma JumpInOrder(price: real)
    requires price > 0.0
    ensures AllValid([FIRST]) && AllValid([FIRST, LEVEL]) && AllValid([FIRST, LEVEL, Jump(price)])
    ensures CheckOrdered([FIRST, LEVEL, Jump(price)]).None?
  {
    assert [FIRST][..0] == [] && [FIRST, LEVEL][..1] == [FIRST];
    assert [FIRST, LEVEL, Jump(price)][..2] == [FIRST, LEVEL];
    assert CheckOrdered([FIRST]).None?;
    assert LastClose([FIRST], 0) == Some(HALF_HOUR);
    assert CheckOrdered([FIRST, LEVEL]).None?;
    assert LastClose([FIRST, LEVEL], 0) == Some(2 * HALF_HOUR);
  }

  lemma OverdrawnReplay(cfg: Config) returns (signals: SignalIndex, candles: seq<Candle>)
    requires ValidConfig(cfg) && GatesOpen(cfg.risk) && LowestScale(cfg.risk) < 0.0 && !StopsAtOnce(cfg)
    ensures ValidSignals(signals) && AllValid(candles) && CheckOrdered(candles).None?
    ensures Run(cfg, signals, candles).Success? && Run(cfg, signals, candles).value.cash < 0.0
  {
    hide Step, StopsAtOnce, CheckOrdered;
    var confidence := Max(cfg.risk.minConfidence, 0.0);
    signals := Signals(confidence);
    var s, stake := DebtIsQueued(cfg, confidence);
    DebtCostsLess(cfg, stake);
    var t := EntryIsOpened(cfg, signals, s, stake);
    var price, u := DebtIsCalled(cfg, confidence, t, stake);
    candles := [FIRST, LEVEL, Jump(price)];
    JumpInOrder(price);
    assert candles[..2] == [FIRST, LEVEL] && [FIRST, LEVEL][..1] == [FIRST];
    assert Run(cfg, signals, [FIRST, LEVEL]) == Success(t);
  }

  // --------------------------------------------------------------- configurations

  ghost predicate SolventAtEnd(cfg: Config, signals: SignalIndex, candles: seq<Candle>)
    requires ValidConfig(cfg) && AllValid(candles)
  {
    Run(cfg, signals, candles).Success? ==>
      Solvent(cfg, Run(cfg, signals, candles).value) && Funded(Run(cfg, signals, candles).value)
  }

  ghost predicate CashAtEnd(cfg: Config, signals: SignalIndex, candles: seq<Candle>)
    requires ValidConfig(cfg) && AllValid(candles)
  {
    Run(cfg, signals, candles).Success? ==> Run(cfg, signals, candles).value.cash >= 0.0
  }

  /** Every replay of the configuration keeps cash and equity from going negative, and its positions funded. */
  ghost predicate AlwaysSolvent(cfg: Config)
    requires ValidConfig(cfg)
  {
    forall signals, candles :: ValidSignals(signals) && AllValid(candles) && CheckOrdered(candles).None? ==>
                                 SolventAtEnd(cfg, signals, candles)
  }

  ghost predicate NeverOverdrawn(cfg: Config)
    requires ValidConfig(cfg)
  {
    forall signals, candles :: ValidSignals(signals) && AllValid(candles) && CheckOrdered(candles).None? ==>
                                 CashAtEnd(cfg, signals, candles)
  }

  /** Every replay of a configuration stays solvent, or merely keeps its cash from going negative, exactly when
      the least confident admissible signal is not sized by a negative scale or every entry is stopped out on
      its own candle. */
  lemma AlwaysSolventIff(cfg: Config)
    requires ValidConfig(cfg) && GatesOpen(cfg.risk)
    ensures AlwaysSolvent(cfg) <==> LowestScale(cfg.risk) >= 0.0 || StopsAtOnce(cfg)
    ensures NeverOverdrawn(cfg) <==> LowestScale(cfg.risk) >= 0.0 || StopsAtOnce(cfg)
  {
    hide Run, Solvent, CheckOrdered, LowestScale, StopsAtOnce, ValidSignals, GatesOpen;
    if LowestScale(cfg.risk) >= 0.0 || StopsAtOnce(cfg) {
      forall signals, candles | ValidSignals(signals) && AllValid(candles) && CheckOrdered(candles).None?
        ensures SolventAtEnd(cfg, signals, candles) && CashAtEnd(cfg, signals, candles)
      {
        ReplaySolvent(cfg, signals, candles);
      }
    } else {
      var signals, candles := OverdrawnReplay(cfg);
      assert !CashAtEnd(cfg, signals, candles);
      OverdrawnIsInsolvent(cfg, signals, candles);
    }
  }

  lemma ReplaySolvent(cfg: Config, signals: SignalIndex, candles: seq<Candle>)
    requires ValidConfig(cfg) && ValidSignals(signals) && AllValid(candles)
    requires LowestScale(cfg.risk) >= 0.0 || StopsAtOnce(cfg)
    ensures SolventAtEnd(cfg, signals, candles) && CashAtEnd(cfg, signals, candles)
  {
    hide Run, LowestScale, StopsAtOnce, ScalesNonNegative;
    if Run(cfg, signals, candles).Success? {
      if LowestScale(cfg.risk) >= 0.0 {
        LowestScaleDecides(cfg.risk, signals);
        RunStaysSolvent(cfg, signals, candles);
      } else {
        StoppedReplayStaysEmpty(cfg, signals, candles);
      }
    }
  }

  lemma OverdrawnIsInsolvent(cfg: Config, signals: SignalIndex, candles: seq<Candle>)
    requires ValidConfig(cfg) && AllValid(candles) && !CashAtEnd(cfg, signals, candles)
    ensures !SolventAtEnd(cfg, signals, candles)
  {
    hide Run;
  }

  /** For a minimum confidence from zero up to one the scale that decides is the configured floor. */
  lemma LowestScaleIsFloor(config: Risk.RiskConfig)
    requires 0.0 <= config.minConfidence
    ensures LowestScale(config) >= 0.0 <==> config.minConfidenceSizeScale >= 0.0 || config.minConfidence >= 1.0
  {
    var range := 1.0 - config.minConfidence;
    if range > 0.0 {
      OverAtLeast(0.0, range, 0.0);
      assert Times(0.0, range) == 0.0 && Times(1.0 - config.minConfidenceSizeScale, 0.0) == 0.0;
    }
  }
}
