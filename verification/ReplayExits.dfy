/** What each exit pays: the ROI price inverts the net return, an ROI exit meets its target, a stop
    loss always costs the same fraction, and net P&L is gross P&L minus both fees. */
module ReplayExits {
  import opened Arithmetic
  import opened Common
  import opened Replay
  import opened ReplayMoney
  import opened Sums

  // ------------------------------------------------------- price inversion

  lemma ReturnFromProceeds(cfg: Config, p: OpenPosition, price: real)
    ensures Times(Times(p.amount, price), 1.0 - cfg.feeRate) == Times(price, Times(p.amount, 1.0 - cfg.feeRate))
  {
  }

  /** The price computed for a target is the price that nets exactly that target, and every price
      is the one computed for its own net return. */
  lemma PriceInvertsReturn(cfg: Config, p: OpenPosition, target: real, price: real)
    requires Cost(p) != 0.0 && Times(p.amount, 1.0 - cfg.feeRate) != 0.0
    ensures NetReturnAtPrice(cfg, p, PriceForNetReturn(cfg, p, target)) == target
    ensures PriceForNetReturn(cfg, p, NetReturnAtPrice(cfg, p, price)) == price
  {
    var c := Cost(p);
    var k := Times(p.amount, 1.0 - cfg.feeRate);
    var fill := PriceForNetReturn(cfg, p, target);
    ReturnFromProceeds(cfg, p, fill);
    OverTimes(Times(c, 1.0 + target), k);
    assert Times(c, 1.0 + target) - c == Times(target, c);
    OverTimes(target, c);
    var r := NetReturnAtPrice(cfg, p, price);
    ReturnFromProceeds(cfg, p, price);
    OverTimes(Times(price, k) - c, c);
    assert Times(c, 1.0 + r) == Times(r, c) + c;
    OverTimes(price, k);
  }

  /** What one unit of exit price returns on the position's cost. */
  function Rate(cfg: Config, p: OpenPosition): real
    requires Cost(p) != 0.0
  {
    Over(Times(p.amount, 1.0 - cfg.feeRate), Cost(p))
  }

  lemma ReturnIsLinear(cfg: Config, p: OpenPosition, price: real)
    requires Cost(p) != 0.0
    ensures NetReturnAtPrice(cfg, p, price) == Times(price, Rate(cfg, p)) - 1.0
  {
    var k := Times(p.amount, 1.0 - cfg.feeRate);
    ReturnFromProceeds(cfg, p, price);
    LinearQuotient(price, k, Cost(p));
  }

  lemma LinearQuotient(price: real, k: real, c: real)
    requires c != 0.0
    ensures Over(Times(price, k) - c, c) == Times(price, Over(k, c)) - 1.0
  {
    hide Times, Over;
    var r := Times(price, Over(k, c)) - 1.0;
    OverTimes(k, c);
    LinearTimes(price, Over(k, c), c);
    OverTimes(r, c);
  }

  lemma LinearTimes(price: real, q: real, c: real)
    ensures Times(Times(price, q) - 1.0, c) == Times(price, Times(q, c)) - c
  {
  }

  /** The net return is strictly increasing in the exit price. */
  lemma HigherPriceHigherReturn(cfg: Config, p: OpenPosition, low: real, high: real)
    requires Cost(p) != 0.0 && Rate(cfg, p) > 0.0
    ensures low < high <==> NetReturnAtPrice(cfg, p, low) < NetReturnAtPrice(cfg, p, high)
  {
    ReturnIsLinear(cfg, p, low);
    ReturnIsLinear(cfg, p, high);
    TimesMonotone(low, high, Rate(cfg, p));
    TimesMonotone(high, low, Rate(cfg, p));
  }

  /** The rate of an entry does not depend on its stake, and is positive. */
  lemma RateForm(cfg: Config, p: OpenPosition)
    requires ValidConfig(cfg) && Shaped(cfg, p) && p.stake != 0.0
    ensures Cost(p) != 0.0 && Times(p.amount, 1.0 - cfg.feeRate) != 0.0
    ensures Times(p.entryPrice, 1.0 + cfg.feeRate) > 0.0
    ensures Rate(cfg, p) == Over(1.0 - cfg.feeRate, Times(p.entryPrice, 1.0 + cfg.feeRate)) > 0.0
  {
    hide Times, Over;
    var net, gross := 1.0 - cfg.feeRate, 1.0 + cfg.feeRate;
    ZeroCostIff(cfg, p);
    CostForm(cfg, p);
    OverTimes(p.stake, p.entryPrice);
    TimesSign(p.entryPrice, gross);
    var r := Over(net, Times(p.entryPrice, gross));
    OverTimes(net, Times(p.entryPrice, gross));
    Regroup(p.amount, p.entryPrice, gross, r);
    OverTimes(r, Cost(p));
    OverSign(net, Times(p.entryPrice, gross));
  }

  lemma Regroup(amount: real, entry: real, gross: real, r: real)
    ensures Times(r, Times(Times(amount, entry), gross)) == Times(amount, Times(r, Times(entry, gross)))
  {
  }

  // ---------------------------------------------------------------- trades

  /** The net return of every stop-loss trade: fixed by the fee, the slippage and the stop. */
  function StopLossReturn(cfg: Config): real
    requires ValidConfig(cfg)
  {
    Over(Times(Times(1.0 - cfg.staticStopLossPct, 1.0 - cfg.slippageRate), 1.0 - cfg.feeRate), 1.0 + cfg.feeRate) - 1.0
  }

  /** The candle that took an ROI exit, and the price it gave. */
  predicate RoiOn(cfg: Config, c: Candle, t: Trade) {
    var target := RoiTarget(c.closeTime - t.openedAt);
    && c.symbol == t.symbol
    && t.exitPrice == SellFill(cfg, t.exitReference)
    && ((t.closedAt == c.openTime && t.exitReference == c.open && t.netPnlPct >= target)
        || (t.closedAt == c.closeTime && c.open < t.exitReference <= c.high && t.netPnlPct == target))
  }

  predicate StopOn(cfg: Config, c: Candle, t: Trade)
    requires ValidConfig(cfg)
  {
    && c.symbol == t.symbol
    && t.closedAt == c.closeTime
    && c.low <= t.exitReference == Times(t.entryPrice, 1.0 - cfg.staticStopLossPct)
    && t.netPnlPct == StopLossReturn(cfg)
  }

  /** Net is gross minus both fees; an ROI or stop exit was taken by one of the candles; and on a positive
      stake the first never loses and the second always does. */
  ghost predicate SoundTrade(cfg: Config, candles: seq<Candle>, t: Trade)
    requires ValidConfig(cfg)
  {
    && t.netPnl == t.grossPnl - t.entryFee - t.exitFee
    && (t.exitReason == Roi ==> exists i :: 0 <= i < |candles| && RoiOn(cfg, candles[i], t))
    && (t.exitReason == StopLoss ==> exists i :: 0 <= i < |candles| && StopOn(cfg, candles[i], t))
    && (t.stake > 0.0 && t.exitReason == Roi ==> t.netPnl >= 0.0)
    && (t.stake > 0.0 && t.exitReason == StopLoss ==> t.netPnl < 0.0)
  }

  lemma NetIsGrossMinusFees(cfg: Config, symbol: Symbol, p: OpenPosition, at: Time, reference: real, fill: real,
                            reason: ExitReason)
    requires Shaped(cfg, p) && Cost(p) != 0.0
    ensures var t := TradeOf(cfg, symbol, p, at, reference, fill, reason);
            && t.netPnl == t.grossPnl - t.entryFee - t.exitFee
            && t.netPnlPct == NetReturnAtPrice(cfg, p, fill)
            && t.netPnl == Times(t.netPnlPct, Cost(p))
  {
    var t := TradeOf(cfg, symbol, p, at, reference, fill, reason);
    OverTimes(p.stake, p.entryPrice);
    assert Times(p.amount, fill - p.entryPrice) == Times(p.amount, fill) - Times(p.amount, p.entryPrice);
    ProceedsForm(cfg, p, fill);
    OverTimes(t.netPnl, Cost(p));
  }

  /** On a positive stake the net P&L has the sign of the net return. */
  lemma ReturnSign(cfg: Config, p: OpenPosition, pct: real)
    requires ValidConfig(cfg) && Shaped(cfg, p)
    ensures p.stake > 0.0 && pct >= 0.0 ==> Times(pct, Cost(p)) >= 0.0
    ensures p.stake > 0.0 && pct < 0.0 ==> Times(pct, Cost(p)) < 0.0
  {
    CostForm(cfg, p);
    TimesSign(p.stake, 1.0 + cfg.feeRate);
    TimesSign(pct, Cost(p));
  }

  lemma StopLossPays(cfg: Config, p: OpenPosition)
    requires ValidConfig(cfg) && Shaped(cfg, p) && p.stake != 0.0
    ensures Cost(p) != 0.0
    ensures NetReturnAtPrice(cfg, p, SellFill(cfg, p.stopPrice)) == StopLossReturn(cfg)
  {
    hide Times, Over;
    var gross := 1.0 + cfg.feeRate;
    RateForm(cfg, p);
    ReturnIsLinear(cfg, p, SellFill(cfg, p.stopPrice));
    StopQuotient(p.entryPrice, 1.0 - cfg.staticStopLossPct, 1.0 - cfg.slippageRate, 1.0 - cfg.feeRate, gross);
  }

  lemma StopQuotient(entry: real, keep: real, slip: real, net: real, gross: real)
    requires entry > 0.0 && gross >= 1.0 && Times(entry, gross) != 0.0
    ensures Times(Times(Times(entry, keep), slip), Over(net, Times(entry, gross)))
            == Over(Times(Times(keep, slip), net), gross)
  {
    hide Times, Over;
    var q := Over(net, Times(entry, gross));
    var x := Times(Times(Times(entry, keep), slip), q);
    OverTimes(net, Times(entry, gross));
    StopProducts(entry, keep, slip, q, gross);
    OverTimes(x, gross);
  }

  lemma StopProducts(entry: real, keep: real, slip: real, q: real, gross: real)
    ensures Times(Times(Times(Times(entry, keep), slip), q), gross)
            == Times(Times(keep, slip), Times(q, Times(entry, gross)))
  {
  }

  lemma StopLossLoses(cfg: Config)
    requires ValidConfig(cfg)
    ensures StopLossReturn(cfg) < 0.0
  {
    hide Times, Over;
    var keep, slip, net := 1.0 - cfg.staticStopLossPct, 1.0 - cfg.slippageRate, 1.0 - cfg.feeRate;
    TimesShrink(keep, slip);
    TimesShrink(Times(keep, slip), net);
    OverAtLeast(Times(Times(keep, slip), net), 1.0 + cfg.feeRate, 1.0);
    TimesOne(1.0 + cfg.feeRate);
  }

  lemma TimesOne(x: real)
    ensures Times(1.0, x) == x
  {
  }

  /** What a safety exit produces, if anything. */
  lemma SafetyTradeIsSound(cfg: Config, s: State, c: Candle, candles: seq<Candle>)
    requires ValidConfig(cfg) && ValidCandle(c) && AllShaped(cfg, s)
    requires candles != [] && candles[|candles| - 1] == c
    requires ApplySafetyExits(cfg, s, c).Success?
    ensures var t := ApplySafetyExits(cfg, s, c).value;
            t.trades == s.trades
            || (|t.trades| == |s.trades| + 1 && t.trades[..|s.trades|] == s.trades
                && SoundTrade(cfg, candles, t.trades[|s.trades|]))
  {
    hide Times, Over;
    if c.symbol in s.positions {
      ZeroCostIff(cfg, s.positions[c.symbol]);
      if s.positions[c.symbol].stake != 0.0 {
        if c.low <= s.positions[c.symbol].stopPrice {
          StopTradeIsSound(cfg, s, c, candles);
        } else {
          RoiTradeIsSound(cfg, s, c, candles);
        }
      }
    }
  }

  lemma StopTradeIsSound(cfg: Config, s: State, c: Candle, candles: seq<Candle>)
    requires ValidConfig(cfg) && ValidCandle(c) && AllShaped(cfg, s)
    requires candles != [] && candles[|candles| - 1] == c
    requires c.symbol in s.positions && s.positions[c.symbol].stake != 0.0 && Cost(s.positions[c.symbol]) != 0.0
    requires c.low <= s.positions[c.symbol].stopPrice
    ensures var p := s.positions[c.symbol];
            SoundTrade(cfg, candles, TradeOf(cfg, c.symbol, p, c.closeTime, p.stopPrice, SellFill(cfg, p.stopPrice),
                                             StopLoss))
  {
    hide Times, Over;
    var p := s.positions[c.symbol];
    StopLossPays(cfg, p);
    StopLossLoses(cfg);
    var fill := SellFill(cfg, p.stopPrice);
    NetIsGrossMinusFees(cfg, c.symbol, p, c.closeTime, p.stopPrice, fill, StopLoss);
    ReturnSign(cfg, p, StopLossReturn(cfg));
    assert StopOn(cfg, candles[|candles| - 1], TradeOf(cfg, c.symbol, p, c.closeTime, p.stopPrice, fill, StopLoss));
  }

  lemma RoiTradeIsSound(cfg: Config, s: State, c: Candle, candles: seq<Candle>)
    requires ValidConfig(cfg) && ValidCandle(c) && AllShaped(cfg, s)
    requires candles != [] && candles[|candles| - 1] == c
    requires c.symbol in s.positions && s.positions[c.symbol].stake != 0.0
    requires c.low > s.positions[c.symbol].stopPrice && ApplySafetyExits(cfg, s, c).Success?
    ensures var t := ApplySafetyExits(cfg, s, c).value;
            t.trades == s.trades
            || (|t.trades| == |s.trades| + 1 && t.trades[..|s.trades|] == s.trades
                && SoundTrade(cfg, candles, t.trades[|s.trades|]))
  {
    hide Times, Over;
    var p := s.positions[c.symbol];
    var i := |candles| - 1;
    var target := RoiTarget(c.closeTime - p.openedAt);
    RateForm(cfg, p);
    var openFill := SellFill(cfg, c.open);
    if NetReturnAtPrice(cfg, p, openFill) >= target {
      NetIsGrossMinusFees(cfg, c.symbol, p, c.openTime, c.open, openFill, Roi);
      ReturnSign(cfg, p, NetReturnAtPrice(cfg, p, openFill));
      assert RoiOn(cfg, candles[i], TradeOf(cfg, c.symbol, p, c.openTime, c.open, openFill, Roi));
    } else {
      var fill := PriceForNetReturn(cfg, p, target);
      var trigger := Trigger(cfg, fill);
      TriggerAboveOpen(cfg, p, c, target);
      if c.high >= trigger {
        NetIsGrossMinusFees(cfg, c.symbol, p, c.closeTime, trigger, fill, Roi);
        ReturnSign(cfg, p, target);
        assert RoiOn(cfg, candles[i], TradeOf(cfg, c.symbol, p, c.closeTime, trigger, fill, Roi));
      }
    }
  }

  /** A target missed at the open lies strictly above the open, and filling there nets it exactly. */
  lemma TriggerAboveOpen(cfg: Config, p: OpenPosition, c: Candle, target: real)
    requires ValidConfig(cfg) && Cost(p) != 0.0 && Times(p.amount, 1.0 - cfg.feeRate) != 0.0 && Rate(cfg, p) > 0.0
    requires NetReturnAtPrice(cfg, p, SellFill(cfg, c.open)) < target
    ensures var fill := PriceForNetReturn(cfg, p, target);
            && NetReturnAtPrice(cfg, p, fill) == target
            && c.open < Trigger(cfg, fill)
            && SellFill(cfg, Trigger(cfg, fill)) == fill
  {
    var fill := PriceForNetReturn(cfg, p, target);
    PriceInvertsReturn(cfg, p, target, fill);
    HigherPriceHigherReturn(cfg, p, SellFill(cfg, c.open), fill);
    OverTimes(fill, 1.0 - cfg.slippageRate);
    OverAtLeast(fill, 1.0 - cfg.slippageRate, c.open);
  }

  lemma SignalExitIsSound(cfg: Config, s: State, c: Candle, candles: seq<Candle>)
    requires ValidConfig(cfg) && ValidCandle(c) && AllShaped(cfg, s)
    requires ExecutePending(cfg, s, c).Success?
    ensures var t := ExecutePending(cfg, s, c).value;
            t.trades == s.trades
            || (|t.trades| == |s.trades| + 1 && t.trades[..|s.trades|] == s.trades
                && SoundTrade(cfg, candles, t.trades[|s.trades|]))
  {
    if Due(s, c) && s.pending[c.symbol].SellOrder? && c.symbol in s.positions {
      var p := s.positions[c.symbol];
      if Cost(p) != 0.0 {
        NetIsGrossMinusFees(cfg, c.symbol, p, c.openTime, c.open, SellFill(cfg, c.open), SignalExit);
      }
    }
  }

  ghost predicate SoundTrades(cfg: Config, candles: seq<Candle>, trades: seq<Trade>)
    requires ValidConfig(cfg)
  {
    forall i :: 0 <= i < |trades| ==> SoundTrade(cfg, candles, trades[i])
  }

  lemma MoreCandlesStillSound(cfg: Config, candles: seq<Candle>, c: Candle, t: Trade)
    requires ValidConfig(cfg) && SoundTrade(cfg, candles, t)
    ensures SoundTrade(cfg, candles + [c], t)
  {
    var more := candles + [c];
    if t.exitReason == Roi {
      var i :| 0 <= i < |candles| && RoiOn(cfg, candles[i], t);
      assert RoiOn(cfg, more[i], t);
    } else if t.exitReason == StopLoss {
      var i :| 0 <= i < |candles| && StopOn(cfg, candles[i], t);
      assert StopOn(cfg, more[i], t);
    }
  }

  lemma StepTradesSound(cfg: Config, signals: SignalIndex, s: State, earlier: seq<Candle>, c: Candle)
    requires ValidConfig(cfg) && ValidCandle(c) && AllShaped(cfg, s) && SoundTrades(cfg, earlier, s.trades)
    requires Step(cfg, signals, s, c).Success?
    ensures SoundTrades(cfg, earlier + [c], Step(cfg, signals, s, c).value.trades)
  {
    hide Times, Over, ExecutePending, ApplySafetyExits, SoundTrade, Shaped, ProcessSignal;
    var candles := earlier + [c];
    forall i | 0 <= i < |s.trades| ensures SoundTrade(cfg, candles, s.trades[i]) {
      MoreCandlesStillSound(cfg, earlier, c, s.trades[i]);
    }
    SignalExitIsSound(cfg, s, c, candles);
    ExecuteKeepsShape(cfg, s, c);
    var filled := ExecutePending(cfg, s, c).value;
    assert SoundTrades(cfg, candles, filled.trades);
    SafetyTradeIsSound(cfg, filled, c, candles);
    var settled := Settle(cfg, s, c).value;
    assert SoundTrades(cfg, candles, settled.trades);
    SignalKeepsMoney(cfg, signals, settled, c);
  }

  /** Every trade of every replay, whatever the configuration: net is gross minus both fees; an ROI trade was
      taken by one of the candles and nets that candle's target (exactly it when filled at the trigger,
      which lies in the candle's range); a stop loss nets one fixed negative fraction. */
  lemma {:induction false} RunTradesSound(cfg: Config, signals: SignalIndex, candles: seq<Candle>)
    requires ValidConfig(cfg) && AllValid(candles)
    requires Run(cfg, signals, candles).Success?
    ensures SoundTrades(cfg, candles, Run(cfg, signals, candles).value.trades)
  {
    if candles != [] {
      var earlier := candles[..|candles| - 1];
      var c := candles[|candles| - 1];
      assert earlier + [c] == candles;
      RunTradesSound(cfg, signals, earlier);
      RunStaysStaked(cfg, signals, earlier);
      StepTradesSound(cfg, signals, Run(cfg, signals, earlier).value, earlier, c);
    }
  }

  // --------------------------------------------------------------- summary

  lemma {:induction false} NetTotalIsGrossMinusFees(cfg: Config, candles: seq<Candle>, trades: seq<Trade>)
    requires ValidConfig(cfg) && SoundTrades(cfg, candles, trades)
    ensures NetTotal(trades) == GrossTotal(trades) - FeeTotal(trades)
  {
    if trades != [] {
      NetTotalIsGrossMinusFees(cfg, candles, trades[..|trades| - 1]);
    }
  }

  /** Marked value of the open positions, less what they cost. */
  ghost function Unrealised(cfg: Config, s: State): real {
    Total(MarkValues(cfg, s)) - Total(Costs(s.positions))
  }

  /** The summary's net P&L is gross minus fees plus the unrealised P&L of what is still open;
      so the two reported figures agree exactly when nothing is gained or lost on paper, as at the
      end of a run that ends flat. */
  lemma SummaryIdentity(cfg: Config, signals: SignalIndex, candles: seq<Candle>)
    requires ValidConfig(cfg) && AllValid(candles)
    requires Run(cfg, signals, candles).Success?
    ensures var s := Run(cfg, signals, candles).value;
            var netPnl := Equity(cfg, s) - cfg.startingEquity;
            && netPnl == GrossTotal(s.trades) - FeeTotal(s.trades) + Unrealised(cfg, s)
            && (netPnl == GrossTotal(s.trades) - FeeTotal(s.trades) <==> Unrealised(cfg, s) == 0.0)
            && (s.positions == map[] ==> Unrealised(cfg, s) == 0.0)
  {
    var s := Run(cfg, signals, candles).value;
    RunConservesMoney(cfg, signals, candles);
    RunTradesSound(cfg, signals, candles);
    NetTotalIsGrossMinusFees(cfg, candles, s.trades);
    if s.positions == map[] {
      assert MarkValues(cfg, s) == map[] && Costs(s.positions) == map[];
    }
  }

  // -------------------------------------------------------- holding times

  /** An ROI trade that nets less than the table asks for the time it was actually held. */
  predicate Undercuts(t: Trade) {
    t.exitReason == Roi && t.netPnlPct < RoiTarget(t.closedAt - t.openedAt)
  }

  /** The target is looked up at the candle's close even when the fill is at its open: the candle's open
      meets the target due at its close, but not yet the one due at its open. */
  predicate OpensBetweenTargets(cfg: Config, s: State, c: Candle) {
    && c.symbol in s.positions && Cost(s.positions[c.symbol]) != 0.0
    && var p := s.positions[c.symbol];
       && c.low > p.stopPrice
       && RoiTarget(c.closeTime - p.openedAt) <= NetReturnAtPrice(cfg, p, SellFill(cfg, c.open))
          < RoiTarget(c.openTime - p.openedAt)
  }

  /** The trades of `t` are those of `s` and at most one more; it undercuts exactly under `bad`. */
  ghost predicate OneMoreTrade(s: State, t: State, bad: bool) {
    && (t.trades == s.trades || (|t.trades| == |s.trades| + 1 && t.trades[..|s.trades|] == s.trades))
    && (bad <==> |t.trades| > |s.trades| && Undercuts(t.trades[|s.trades|]))
  }

  lemma SafetyUndercutsIff(cfg: Config, s: State, c: Candle)
    requires ValidConfig(cfg) && ValidCandle(c) && AllShaped(cfg, s) && ApplySafetyExits(cfg, s, c).Success?
    ensures OneMoreTrade(s, ApplySafetyExits(cfg, s, c).value, OpensBetweenTargets(cfg, s, c))
  {
    hide Times, Over;
    if c.symbol in s.positions {
      var p := s.positions[c.symbol];
      ZeroCostIff(cfg, p);
      if p.stake != 0.0 && c.low > p.stopPrice {
        RateForm(cfg, p);
        var target := RoiTarget(c.closeTime - p.openedAt);
        var openFill := SellFill(cfg, c.open);
        if NetReturnAtPrice(cfg, p, openFill) >= target {
          NetIsGrossMinusFees(cfg, c.symbol, p, c.openTime, c.open, openFill, Roi);
        } else {
          var fill := PriceForNetReturn(cfg, p, target);
          PriceInvertsReturn(cfg, p, target, fill);
          NetIsGrossMinusFees(cfg, c.symbol, p, c.closeTime, Trigger(cfg, fill), fill, Roi);
        }
      }
    }
  }

  lemma SignalExitNeverUndercuts(cfg: Config, s: State, c: Candle)
    requires ValidConfig(cfg) && ValidCandle(c) && ExecutePending(cfg, s, c).Success?
    ensures OneMoreTrade(s, ExecutePending(cfg, s, c).value, false)
  {
    hide Times, Over;
  }

  ghost predicate SomeUndercuts(trades: seq<Trade>) {
    exists i :: 0 <= i < |trades| && Undercuts(trades[i])
  }

  lemma OneMoreUndercutsIff(s: State, t: State, bad: bool)
    requires OneMoreTrade(s, t, bad)
    ensures SomeUndercuts(t.trades) <==> SomeUndercuts(s.trades) || bad
  {
    hide Undercuts;
    if t.trades != s.trades {
      assert forall i :: 0 <= i < |s.trades| ==> t.trades[i] == t.trades[..|s.trades|][i];
    }
  }

  lemma StepUndercutsIff(cfg: Config, signals: SignalIndex, s: State, t: State, c: Candle)
    requires ValidConfig(cfg) && ValidCandle(c) && AllShaped(cfg, s) && Step(cfg, signals, s, c) == Success(t)
    ensures ExecutePending(cfg, s, c).Success?
    ensures SomeUndercuts(t.trades) <==>
              SomeUndercuts(s.trades) || OpensBetweenTargets(cfg, ExecutePending(cfg, s, c).value, c)
  {
    hide ExecutePending, ApplySafetyExits, ProcessSignal, OpensBetweenTargets, SomeUndercuts, OneMoreTrade, Shaped;
    var filled := ExecutePending(cfg, s, c).value;
    SignalExitNeverUndercuts(cfg, s, c);
    OneMoreUndercutsIff(s, filled, false);
    ExecuteKeepsShape(cfg, s, c);
    SafetyUndercutsIff(cfg, filled, c);
    var safe := ApplySafetyExits(cfg, filled, c).value;
    OneMoreUndercutsIff(filled, safe, OpensBetweenTargets(cfg, filled, c));
    SignalKeepsMoney(cfg, signals, Settle(cfg, s, c).value, c);
  }

  /** Candle `n` opens between the two targets of the position it finds after its fill. */
  ghost predicate OpensBetweenTargetsAt(cfg: Config, signals: SignalIndex, candles: seq<Candle>, n: nat)
    requires ValidConfig(cfg) && AllValid(candles) && n < |candles|
  {
    && Run(cfg, signals, candles[..n]).Success?
    && ExecutePending(cfg, Run(cfg, signals, candles[..n]).value, candles[n]).Success?
    && OpensBetweenTargets(cfg, ExecutePending(cfg, Run(cfg, signals, candles[..n]).value, candles[n]).value, candles[n])
  }

  /** A replay holds an ROI trade below its own holding time's target exactly when some candle opened
      between the targets due at its open and at its close. */
  lemma {:induction false} RunUndercutsIff(cfg: Config, signals: SignalIndex, candles: seq<Candle>)
    requires ValidConfig(cfg) && AllValid(candles) && Run(cfg, signals, candles).Success?
    ensures SomeUndercuts(Run(cfg, signals, candles).value.trades) <==>
              exists n :: 0 <= n < |candles| && OpensBetweenTargetsAt(cfg, signals, candles, n)
  {
    hide ExecutePending, Step, OpensBetweenTargets, Undercuts;
    if candles != [] {
      var last := |candles| - 1;
      var earlier := candles[..last];
      RunUndercutsIff(cfg, signals, earlier);
      forall n | 0 <= n < last
        ensures OpensBetweenTargetsAt(cfg, signals, earlier, n) == OpensBetweenTargetsAt(cfg, signals, candles, n)
      {
        assert earlier[..n] == candles[..n];
      }
      RunStaysStaked(cfg, signals, earlier);
      StepUndercutsIff(cfg, signals, Run(cfg, signals, earlier).value, Run(cfg, signals, candles).value, candles[last]);
      assert OpensBetweenTargetsAt(cfg, signals, candles, last)
          <==> OpensBetweenTargets(cfg, ExecutePending(cfg, Run(cfg, signals, earlier).value, candles[last]).value,
                                   candles[last]);
    }
  }
}
