/** Money in a replay: conservation, solvency, and what each kind of exit pays. */
module ReplayMoney {
  import opened Arithmetic
  import opened Common
  import opened Replay
  import opened Sums
  import Risk
  import RiskFacts

  // ---------------------------------------------------------- conservation

  function NetTotal(trades: seq<Trade>): real {
    if trades == [] then 0.0 else NetTotal(trades[..|trades| - 1]) + trades[|trades| - 1].netPnl
  }

  function GrossTotal(trades: seq<Trade>): real {
    if trades == [] then 0.0 else GrossTotal(trades[..|trades| - 1]) + trades[|trades| - 1].grossPnl
  }

  function FeeTotal(trades: seq<Trade>): real {
    if trades == [] then 0.0 else
      var t := trades[|trades| - 1];
      FeeTotal(trades[..|trades| - 1]) + (t.entryFee + t.exitFee)
  }

  lemma TotalsAppend(trades: seq<Trade>, t: Trade)
    ensures NetTotal(trades + [t]) == NetTotal(trades) + t.netPnl
    ensures GrossTotal(trades + [t]) == GrossTotal(trades) + t.grossPnl
    ensures FeeTotal(trades + [t]) == FeeTotal(trades) + (t.entryFee + t.exitFee)
  {
    assert (trades + [t])[..|trades + [t]| - 1] == trades;
  }

  function Costs(positions: map<Symbol, OpenPosition>): map<Symbol, real> {
    map k | k in positions :: Cost(positions[k])
  }

  /** Cash is the starting equity plus realised P&L minus what open positions cost. */
  ghost predicate Conserved(cfg: Config, s: State) {
    s.cash == cfg.startingEquity + NetTotal(s.trades) - Total(Costs(s.positions))
  }

  lemma CloseConserves(cfg: Config, s: State, symbol: Symbol, closedAt: Time, reference: real, exitPrice: real,
                       reason: ExitReason)
    requires symbol in s.positions && Conserved(cfg, s)
    requires ClosePosition(cfg, s, symbol, closedAt, reference, exitPrice, reason).Success?
    ensures Conserved(cfg, ClosePosition(cfg, s, symbol, closedAt, reference, exitPrice, reason).value)
  {
    var p := s.positions[symbol];
    TotalsAppend(s.trades, TradeOf(cfg, symbol, p, closedAt, reference, exitPrice, reason));
    TotalRemove(Costs(s.positions), symbol);
    assert Costs(s.positions - {symbol}) == Costs(s.positions) - {symbol};
  }

  lemma ExecuteConserves(cfg: Config, s: State, c: Candle)
    requires ValidConfig(cfg) && ValidCandle(c) && Conserved(cfg, s)
    requires ExecutePending(cfg, s, c).Success?
    ensures Conserved(cfg, ExecutePending(cfg, s, c).value)
  {
    if Due(s, c) {
      var taken := TakePending(s, c.symbol);
      match s.pending[c.symbol]
      case BuyOrder(_, stake) =>
        if Affordable(cfg, s, c, stake) {
          var p := Opened(cfg, c, stake);
          TotalInsert(Costs(s.positions), c.symbol, Cost(p));
          assert Costs(s.positions[c.symbol := p]) == Costs(s.positions)[c.symbol := Cost(p)];
        }
      case SellOrder(_) =>
        if c.symbol in s.positions {
          CloseConserves(cfg, taken, c.symbol, c.openTime, c.open, SellFill(cfg, c.open), SignalExit);
        }
    }
  }

  /** A safety exit either leaves the state alone or closes the candle's position at some price. */
  lemma SafetyExitShape(cfg: Config, s: State, c: Candle) returns (at: Time, reference: real, fill: real,
                                                                   reason: ExitReason)
    requires ValidConfig(cfg)
    requires ApplySafetyExits(cfg, s, c).Success?
    ensures ApplySafetyExits(cfg, s, c).value == s
            || (c.symbol in s.positions && reason in {StopLoss, Roi} && at in {c.openTime, c.closeTime}
                && ApplySafetyExits(cfg, s, c) == ClosePosition(cfg, s, c.symbol, at, reference, fill, reason))
  {
    at, reference, fill, reason := c.openTime, c.open, SellFill(cfg, c.open), Roi;
    if c.symbol in s.positions {
      var p := s.positions[c.symbol];
      if c.low <= p.stopPrice {
        at, reference, fill, reason := c.closeTime, p.stopPrice, SellFill(cfg, p.stopPrice), StopLoss;
      } else {
        var target := RoiTarget(c.closeTime - p.openedAt);
        if NetReturnAtPrice(cfg, p, SellFill(cfg, c.open)) < target {
          fill := PriceForNetReturn(cfg, p, target);
          at, reference := c.closeTime, Trigger(cfg, fill);
        }
      }
    }
  }

  /** Apart from its own symbol a candle's fill changes no position and no order, and decides nothing. */
  lemma ExecuteTouchesOnly(cfg: Config, s: State, c: Candle)
    requires ValidConfig(cfg) && ValidCandle(c) && ExecutePending(cfg, s, c).Success?
    ensures var t := ExecutePending(cfg, s, c).value;
            && (forall k :: k != c.symbol ==> (k in t.positions <==> k in s.positions))
            && (forall k :: k != c.symbol && k in s.positions ==> t.positions[k] == s.positions[k])
            && t.pending == (if Due(s, c) then s.pending - {c.symbol} else s.pending)
            && t.decisions == s.decisions && t.killswitch == s.killswitch
  {
    hide Times, Over;
  }

  lemma SafetyTouchesOnly(cfg: Config, s: State, c: Candle)
    requires ValidConfig(cfg) && ApplySafetyExits(cfg, s, c).Success?
    ensures var t := ApplySafetyExits(cfg, s, c).value;
            && (forall k :: k != c.symbol ==> (k in t.positions <==> k in s.positions))
            && (forall k :: k != c.symbol && k in s.positions ==> t.positions[k] == s.positions[k])
            && t.pending == s.pending && t.decisions == s.decisions && t.killswitch == s.killswitch
  {
    hide ApplySafetyExits;
    var at, reference, fill, reason := SafetyExitShape(cfg, s, c);
  }

  lemma StepConserves(cfg: Config, signals: SignalIndex, s: State, c: Candle)
    requires ValidConfig(cfg) && ValidCandle(c) && Conserved(cfg, s)
    requires Step(cfg, signals, s, c).Success?
    ensures Conserved(cfg, Step(cfg, signals, s, c).value)
  {
    ExecuteConserves(cfg, s, c);
    var filled := ExecutePending(cfg, s, c).value;
    var at, reference, fill, reason := SafetyExitShape(cfg, filled, c);
    if ApplySafetyExits(cfg, filled, c).value != filled {
      CloseConserves(cfg, filled, c.symbol, at, reference, fill, reason);
    }
    var settled := Settle(cfg, s, c).value;
    SignalKeepsMoney(cfg, signals, settled, c);
  }

  /** Deciding on a signal moves no money: it only queues orders and records decisions. */
  lemma SignalKeepsMoney(cfg: Config, signals: SignalIndex, s: State, c: Candle)
    requires Decided(cfg, signals, s, c).Success?
    ensures var t := Decided(cfg, signals, s, c).value;
            && t.cash == s.cash && t.positions == s.positions && t.trades == s.trades
            && t.equityCurve == s.equityCurve && t.lastPrices == s.lastPrices
  {
  }

  /** In every reachable replay state, whatever the configuration and signals, money is conserved. */
  lemma {:induction false} RunConservesMoney(cfg: Config, signals: SignalIndex, candles: seq<Candle>)
    requires ValidConfig(cfg) && AllValid(candles)
    requires Run(cfg, signals, candles).Success?
    ensures Conserved(cfg, Run(cfg, signals, candles).value)
  {
    if candles == [] {
      assert Costs(map[]) == map[];
    } else {
      var earlier := candles[..|candles| - 1];
      RunConservesMoney(cfg, signals, earlier);
      StepConserves(cfg, signals, Run(cfg, signals, earlier).value, candles[|candles| - 1]);
    }
  }

  // ----------------------------------------------------------------- shape

  /** What an entry records about the position, for as long as it is open. */
  predicate Shaped(cfg: Config, p: OpenPosition) {
    && p.entryPrice > 0.0
    && p.amount == Over(p.stake, p.entryPrice)
    && p.entryFee == Times(p.stake, cfg.feeRate)
    && p.stopPrice == Times(p.entryPrice, 1.0 - cfg.staticStopLossPct)
  }

  ghost predicate AllShaped(cfg: Config, s: State) {
    forall k :: k in s.positions ==> Shaped(cfg, s.positions[k])
  }

  /** Between candles every position has its entry's shape and a stake that is not zero. */
  ghost predicate Staked(cfg: Config, s: State) {
    AllShaped(cfg, s) && forall k :: k in s.positions ==> s.positions[k].stake != 0.0
  }

  lemma OpenedIsShaped(cfg: Config, c: Candle, stake: real)
    requires ValidConfig(cfg) && ValidCandle(c)
    ensures Shaped(cfg, Opened(cfg, c, stake))
  {
    TimesSign(c.open, 1.0 + cfg.slippageRate);
  }

  lemma CostForm(cfg: Config, p: OpenPosition)
    requires Shaped(cfg, p)
    ensures Cost(p) == Times(p.stake, 1.0 + cfg.feeRate)
  {
  }

  /** Only a zero stake makes a division by the cost, or by the net amount, impossible. */
  lemma ZeroCostIff(cfg: Config, p: OpenPosition)
    requires ValidConfig(cfg) && Shaped(cfg, p)
    ensures Cost(p) == 0.0 <==> p.stake == 0.0
    ensures Times(p.amount, 1.0 - cfg.feeRate) == 0.0 <==> p.stake == 0.0
  {
    CostForm(cfg, p);
    TimesSign(p.stake, 1.0 + cfg.feeRate);
    TimesSign(-p.stake, 1.0 + cfg.feeRate);
    assert Times(-p.stake, 1.0 + cfg.feeRate) == -Times(p.stake, 1.0 + cfg.feeRate);
    OverSign(p.stake, p.entryPrice);
    OverTimes(p.stake, p.entryPrice);
    TimesSign(p.amount, 1.0 - cfg.feeRate);
    TimesSign(-p.amount, 1.0 - cfg.feeRate);
    assert Times(-p.amount, 1.0 - cfg.feeRate) == -Times(p.amount, 1.0 - cfg.feeRate);
  }

  lemma ExecuteKeepsShape(cfg: Config, s: State, c: Candle)
    requires ValidConfig(cfg) && ValidCandle(c) && AllShaped(cfg, s)
    requires ExecutePending(cfg, s, c).Success?
    ensures AllShaped(cfg, ExecutePending(cfg, s, c).value)
  {
    hide Times, Over, Shaped;
    if Due(s, c) && s.pending[c.symbol].BuyOrder? {
      OpenedIsShaped(cfg, c, s.pending[c.symbol].stake);
    }
  }

  /** A position that survives the safety exits was not of stake zero: its return was computed. */
  lemma SurvivorsAreStaked(cfg: Config, s: State, c: Candle)
    requires ValidConfig(cfg) && AllShaped(cfg, s) && ApplySafetyExits(cfg, s, c).Success?
    ensures c.symbol in ApplySafetyExits(cfg, s, c).value.positions ==>
              ApplySafetyExits(cfg, s, c).value.positions[c.symbol].stake != 0.0
  {
    hide Times, Over;
    if c.symbol in s.positions {
      ZeroCostIff(cfg, s.positions[c.symbol]);
    }
  }

  lemma SettledIsStaked(cfg: Config, s: State, c: Candle)
    requires ValidConfig(cfg) && ValidCandle(c) && Staked(cfg, s)
    requires Settle(cfg, s, c).Success?
    ensures Staked(cfg, Settle(cfg, s, c).value)
  {
    hide ExecutePending, ApplySafetyExits, Shaped;
    var filled := ExecutePending(cfg, s, c).value;
    ExecuteKeepsShape(cfg, s, c);
    ExecuteTouchesOnly(cfg, s, c);
    SafetyTouchesOnly(cfg, filled, c);
    SafetyKeepsShape(cfg, filled, c);
    SurvivorsAreStaked(cfg, filled, c);
  }

  lemma SafetyKeepsShape(cfg: Config, s: State, c: Candle)
    requires ValidConfig(cfg) && AllShaped(cfg, s) && ApplySafetyExits(cfg, s, c).Success?
    ensures AllShaped(cfg, ApplySafetyExits(cfg, s, c).value)
  {
    hide ApplySafetyExits, Shaped;
    var at, reference, fill, reason := SafetyExitShape(cfg, s, c);
  }

  /** In every reachable state, whatever the configuration, positions have their shape and a stake. */
  lemma {:induction false} RunStaysStaked(cfg: Config, signals: SignalIndex, candles: seq<Candle>)
    requires ValidConfig(cfg) && AllValid(candles)
    requires Run(cfg, signals, candles).Success?
    ensures Staked(cfg, Run(cfg, signals, candles).value)
  {
    hide ExecutePending, ApplySafetyExits, ProcessSignal, Shaped;
    if candles != [] {
      var earlier := candles[..|candles| - 1];
      var c := candles[|candles| - 1];
      RunStaysStaked(cfg, signals, earlier);
      var s := Run(cfg, signals, earlier).value;
      SettledIsStaked(cfg, s, c);
      SignalKeepsMoney(cfg, signals, Settle(cfg, s, c).value, c);
    }
  }

  // --------------------------------------------------------------- solvency

  predicate SoundPosition(cfg: Config, p: OpenPosition) {
    Shaped(cfg, p) && p.stake >= 0.0
  }

  /** Cash and equity never below zero, and every open position bought for a stake that is not negative. */
  predicate Solvent(cfg: Config, s: State) {
    && s.cash >= 0.0
    && (forall k :: k in s.positions ==> SoundPosition(cfg, s.positions[k]))
    && (forall k :: k in s.lastPrices ==> s.lastPrices[k] > 0.0)
    && (forall i :: 0 <= i < |s.equityCurve| ==> s.equityCurve[i].equity >= 0.0)
  }

  /** No waiting entry has a negative stake. */
  predicate NoneOwed(s: State) {
    forall k :: k in s.pending && s.pending[k].BuyOrder? ==> s.pending[k].stake >= 0.0
  }

  predicate Funded(s: State) {
    forall k :: k in s.positions ==> s.positions[k].stake > 0.0
  }

  lemma OpenedIsSound(cfg: Config, c: Candle, stake: real)
    requires ValidConfig(cfg) && ValidCandle(c) && stake >= 0.0
    ensures SoundPosition(cfg, Opened(cfg, c, stake))
  {
    TimesSign(c.open, 1.0 + cfg.slippageRate);
  }

  lemma ProceedsForm(cfg: Config, p: OpenPosition, price: real)
    ensures Proceeds(cfg, p, price) == Times(Times(p.amount, price), 1.0 - cfg.feeRate)
  {
    var gross := Times(p.amount, price);
    assert gross * (1.0 - cfg.feeRate) == gross - gross * cfg.feeRate;
  }

  lemma ProceedsNonNegative(cfg: Config, p: OpenPosition, price: real)
    requires ValidConfig(cfg) && SoundPosition(cfg, p) && price >= 0.0
    ensures p.amount >= 0.0 && Proceeds(cfg, p, price) >= 0.0
  {
    OverSign(p.stake, p.entryPrice);
    TimesSign(p.amount, price);
    TimesSign(Times(p.amount, price), 1.0 - cfg.feeRate);
    ProceedsForm(cfg, p, price);
  }

  lemma CloseKeepsSolvent(cfg: Config, s: State, symbol: Symbol, closedAt: Time, reference: real, exitPrice: real,
                          reason: ExitReason)
    requires ValidConfig(cfg) && Solvent(cfg, s)
    requires symbol in s.positions && exitPrice >= 0.0
    requires ClosePosition(cfg, s, symbol, closedAt, reference, exitPrice, reason).Success?
    ensures Solvent(cfg, ClosePosition(cfg, s, symbol, closedAt, reference, exitPrice, reason).value)
  {
    ProceedsNonNegative(cfg, s.positions[symbol], exitPrice);
  }

  lemma ExecuteKeepsSolvent(cfg: Config, s: State, c: Candle)
    requires ValidConfig(cfg) && ValidCandle(c) && Solvent(cfg, s) && NoneOwed(s)
    requires ExecutePending(cfg, s, c).Success?
    ensures Solvent(cfg, ExecutePending(cfg, s, c).value)
  {
    if Due(s, c) {
      match s.pending[c.symbol]
      case BuyOrder(_, stake) =>
        OpenedIsSound(cfg, c, stake);
      case SellOrder(_) =>
        if c.symbol in s.positions {
          TimesSign(c.open, 1.0 - cfg.slippageRate);
          CloseKeepsSolvent(cfg, TakePending(s, c.symbol), c.symbol, c.openTime, c.open, SellFill(cfg, c.open),
                            SignalExit);
        }
    }
  }

  /** Every safety exit fills at a non-negative price. */
  lemma SafetyKeepsSolvent(cfg: Config, s: State, c: Candle)
    requires ValidConfig(cfg) && ValidCandle(c) && Solvent(cfg, s)
    requires ApplySafetyExits(cfg, s, c).Success?
    ensures Solvent(cfg, ApplySafetyExits(cfg, s, c).value)
    ensures forall k :: k in s.positions && k != c.symbol && s.positions[k].stake > 0.0 ==>
                          k in ApplySafetyExits(cfg, s, c).value.positions
    ensures c.symbol in ApplySafetyExits(cfg, s, c).value.positions ==>
              ApplySafetyExits(cfg, s, c).value.positions[c.symbol].stake > 0.0
  {
    if c.symbol in s.positions && s.positions[c.symbol].stake != 0.0 {
      var p := s.positions[c.symbol];
      if c.low <= p.stopPrice {
        TimesSign(p.entryPrice, 1.0 - cfg.staticStopLossPct);
        TimesSign(p.stopPrice, 1.0 - cfg.slippageRate);
        CloseKeepsSolvent(cfg, s, c.symbol, c.closeTime, p.stopPrice, SellFill(cfg, p.stopPrice), StopLoss);
      } else {
        var target := RoiTarget(c.closeTime - p.openedAt);
        TimesSign(c.open, 1.0 - cfg.slippageRate);
        if NetReturnAtPrice(cfg, p, SellFill(cfg, c.open)) >= target {
          CloseKeepsSolvent(cfg, s, c.symbol, c.openTime, c.open, SellFill(cfg, c.open), Roi);
        } else {
          var fill := PriceForNetReturn(cfg, p, target);
          TargetFillPositive(cfg, p, target);
          if c.high >= Trigger(cfg, fill) {
            CloseKeepsSolvent(cfg, s, c.symbol, c.closeTime, Trigger(cfg, fill), fill, Roi);
          }
        }
      }
    }
  }

  lemma TargetFillPositive(cfg: Config, p: OpenPosition, target: real)
    requires ValidConfig(cfg) && SoundPosition(cfg, p) && p.stake > 0.0 && target >= 0.0
    ensures Cost(p) > 0.0 && p.amount > 0.0 && Times(p.amount, 1.0 - cfg.feeRate) > 0.0
    ensures PriceForNetReturn(cfg, p, target) > 0.0
  {
    OverSign(p.stake, p.entryPrice);
    TimesSign(p.stake, cfg.feeRate);
    TimesSign(p.amount, 1.0 - cfg.feeRate);
    TimesSign(Cost(p), 1.0 + target);
    OverSign(Times(Cost(p), 1.0 + target), Times(p.amount, 1.0 - cfg.feeRate));
  }

  lemma EquityNonNegative(cfg: Config, s: State)
    requires ValidConfig(cfg) && Solvent(cfg, s)
    ensures Equity(cfg, s) >= 0.0
  {
    forall k | k in MarkValues(cfg, s) ensures MarkValues(cfg, s)[k] >= 0.0 {
      ProceedsNonNegative(cfg, s.positions[k], MarkPrice(s, k));
      ProceedsForm(cfg, s.positions[k], MarkPrice(s, k));
    }
    TotalNonNegative(MarkValues(cfg, s));
  }

  /** Every signal that passes the confidence gate is sized by a scale that is not negative. */
  predicate ScalesNonNegative(config: Risk.RiskConfig, signals: SignalIndex) {
    forall key :: key in signals && signals[key].confidence >= config.minConfidence ==>
                    Risk.ConfidenceScale(signals[key].confidence, config) >= 0.0
  }

  /** As it is, for any signals, when the configured scale is not negative. */
  lemma NonNegativeFloorScales(config: Risk.RiskConfig, signals: SignalIndex)
    requires config.minConfidenceSizeScale >= 0.0
    ensures ScalesNonNegative(config, signals)
  {
    hide Risk.ConfidenceScale;
    forall key | key in signals ensures Risk.ConfidenceScale(signals[key].confidence, config) >= 0.0 {
      RiskFacts.ScaleNonNegative(signals[key].confidence, config);
    }
  }

  lemma DecidedKeepsSolvent(cfg: Config, signals: SignalIndex, s: State, c: Candle)
    requires Solvent(cfg, s)
    requires Decided(cfg, signals, s, c).Success?
    ensures Solvent(cfg, Decided(cfg, signals, s, c).value)
  {
    hide SoundPosition, ProcessSignal;
    SignalKeepsMoney(cfg, signals, s, c);
  }

  lemma DecidedOwesNothing(cfg: Config, signals: SignalIndex, s: State, c: Candle)
    requires ScalesNonNegative(cfg.risk, signals) && NoneOwed(s)
    requires Decided(cfg, signals, s, c).Success?
    ensures NoneOwed(Decided(cfg, signals, s, c).value)
  {
    hide Risk.ConfidenceScale;
    if (c.symbol, c.closeTime) in signals {
      var signal := signals[(c.symbol, c.closeTime)];
      if signal.action != Risk.SELL {
        ApprovedStakeNonNegative(cfg, s, c, signal);
      }
    }
  }

  lemma ApprovedStakeNonNegative(cfg: Config, s: State, c: Candle, signal: Signal)
    requires signal.confidence >= cfg.risk.minConfidence ==> Risk.ConfidenceScale(signal.confidence, cfg.risk) >= 0.0
    requires EntryDecision(cfg, s, c, signal).Success?
    ensures var d := EntryDecision(cfg, s, c, signal).value;
            d.approved ==> d.sizing.Some? && d.sizing.value.positionSize >= 0.0
  {
    SizedByAccount(View(c, signal), AccountState(cfg, s, c.closeTime), cfg.risk, c.closeTime, s.killswitch,
                   signal.symbol in s.pending);
  }

  lemma SizedByAccount(view: Risk.SignalView, a: Risk.AccountState, config: Risk.RiskConfig, now: Time, kill: bool,
                       dup: bool)
    requires view.confidence >= config.minConfidence ==> Risk.ConfidenceScale(view.confidence, config) >= 0.0
    requires Risk.Evaluate(view, a, config, now, kill, dup, NO_EXPECTANCY).Success?
    ensures var d := Risk.Evaluate(view, a, config, now, kill, dup, NO_EXPECTANCY).value;
            d.approved ==> d.sizing.Some? && d.sizing.value.positionSize >= 0.0
  {
    RiskFacts.EvaluateApprovedIff(view, a, config, now, kill, dup, NO_EXPECTANCY);
    if view.confidence >= config.minConfidence {
      RiskFacts.SizeNonNegative(a.equity, a.freeBalance, view.price, view.atr14, view.confidence, config);
    }
  }

  lemma StepKeepsSolvent(cfg: Config, signals: SignalIndex, s: State, c: Candle)
    requires ValidConfig(cfg) && ValidCandle(c)
    requires Solvent(cfg, s) && Funded(s) && NoneOwed(s)
    requires Step(cfg, signals, s, c).Success?
    ensures Solvent(cfg, Step(cfg, signals, s, c).value) && Funded(Step(cfg, signals, s, c).value)
  {
    hide ExecutePending, ApplySafetyExits, ProcessSignal, SoundPosition;
    ExecuteKeepsSolvent(cfg, s, c);
    SafetyKeepsSolvent(cfg, ExecutePending(cfg, s, c).value, c);
    var settled := Settle(cfg, s, c).value;
    DecidedKeepsSolvent(cfg, signals, settled, c);
    SignalKeepsMoney(cfg, signals, settled, c);
    EquityNonNegative(cfg, Decided(cfg, signals, settled, c).value);
    FundedAfterSettling(cfg, s, c);
  }

  lemma FundedAfterSettling(cfg: Config, s: State, c: Candle)
    requires ValidConfig(cfg) && ValidCandle(c) && Solvent(cfg, s) && Funded(s) && NoneOwed(s)
    requires Settle(cfg, s, c).Success?
    ensures Funded(Settle(cfg, s, c).value)
  {
    hide ExecutePending, ApplySafetyExits, Solvent;
    var filled := ExecutePending(cfg, s, c).value;
    ExecuteKeepsSolvent(cfg, s, c);
    SafetyKeepsSolvent(cfg, filled, c);
    ExecuteTouchesOnly(cfg, s, c);
    SafetyTouchesOnly(cfg, filled, c);
    forall k | k in Settle(cfg, s, c).value.positions
      ensures Settle(cfg, s, c).value.positions[k].stake > 0.0
    {
      if k != c.symbol {
        assert k in s.positions && Settle(cfg, s, c).value.positions[k] == s.positions[k];
      }
    }
  }

  /** The first `n` candles leave no waiting entry of negative stake. */
  ghost predicate NoneOwedAfter(cfg: Config, signals: SignalIndex, candles: seq<Candle>, n: nat)
    requires ValidConfig(cfg) && AllValid(candles) && n <= |candles|
  {
    Run(cfg, signals, candles[..n]).Success? ==> NoneOwed(Run(cfg, signals, candles[..n]).value)
  }

  /** A replay that queues no entry of negative stake on the way stays solvent. */
  lemma {:induction false} OwingNothingStaysSolvent(cfg: Config, signals: SignalIndex, candles: seq<Candle>)
    requires ValidConfig(cfg) && AllValid(candles) && Run(cfg, signals, candles).Success?
    requires forall n :: 0 <= n < |candles| ==> NoneOwedAfter(cfg, signals, candles, n)
    ensures Solvent(cfg, Run(cfg, signals, candles).value) && Funded(Run(cfg, signals, candles).value)
  {
    hide Step, Solvent, NoneOwed;
    if candles == [] {
      InitIsSolvent(cfg);
    } else {
      var earlier := candles[..|candles| - 1];
      forall n | 0 <= n < |earlier| ensures NoneOwedAfter(cfg, signals, earlier, n) {
        assert NoneOwedAfter(cfg, signals, candles, n) && earlier[..n] == candles[..n];
      }
      OwingNothingStaysSolvent(cfg, signals, earlier);
      assert NoneOwedAfter(cfg, signals, candles, |earlier|);
      StepKeepsSolvent(cfg, signals, Run(cfg, signals, earlier).value, candles[|candles| - 1]);
    }
  }

  lemma InitIsSolvent(cfg: Config)
    requires ValidConfig(cfg)
    ensures Solvent(cfg, Init(cfg)) && Funded(Init(cfg))
  {
  }

  /** Signals sized by scales that are not negative queue no negative stake. */
  lemma {:induction false} NonNegativeScalesOweNothing(cfg: Config, signals: SignalIndex, candles: seq<Candle>)
    requires ValidConfig(cfg) && AllValid(candles) && ScalesNonNegative(cfg.risk, signals)
    requires Run(cfg, signals, candles).Success?
    ensures NoneOwed(Run(cfg, signals, candles).value)
  {
    hide ExecutePending, ApplySafetyExits, ProcessSignal, ScalesNonNegative;
    if candles != [] {
      var earlier := candles[..|candles| - 1];
      var c := candles[|candles| - 1];
      NonNegativeScalesOweNothing(cfg, signals, earlier);
      var s := Run(cfg, signals, earlier).value;
      ExecuteTouchesOnly(cfg, s, c);
      SafetyTouchesOnly(cfg, ExecutePending(cfg, s, c).value, c);
      DecidedOwesNothing(cfg, signals, Settle(cfg, s, c).value, c);
    }
  }

  /** So with such scales every replay stays solvent. */
  lemma RunStaysSolvent(cfg: Config, signals: SignalIndex, candles: seq<Candle>)
    requires ValidConfig(cfg) && AllValid(candles) && ScalesNonNegative(cfg.risk, signals)
    requires Run(cfg, signals, candles).Success?
    ensures Solvent(cfg, Run(cfg, signals, candles).value) && Funded(Run(cfg, signals, candles).value)
    ensures NoneOwed(Run(cfg, signals, candles).value)
  {
    hide ScalesNonNegative;
    forall n | 0 <= n < |candles| ensures NoneOwedAfter(cfg, signals, candles, n) {
      if Run(cfg, signals, candles[..n]).Success? {
        NonNegativeScalesOweNothing(cfg, signals, candles[..n]);
      }
    }
    NonNegativeScalesOweNothing(cfg, signals, candles);
    OwingNothingStaysSolvent(cfg, signals, candles);
  }
}
