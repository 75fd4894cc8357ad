/** The in-memory ledger of the offline backtest, updated in place. */
module BacktestLedger {
  import opened Arithmetic
  import opened Common
  import opened LedgerModel
  import opened Sums
  import LedgerFacts
  import Risk

  class Ledger {
    const setup: Setup
    var positions: map<Symbol, SimPosition>
    var closedTrades: seq<ClosedTrade>
    var consecutiveLosses: nat
    var lastLossClosedAt: Option<Time>
    var symbolLastClosedAt: map<Symbol, Time>
    var killswitchTripped: bool
    var realizedPnl: real

    ghost function View(): State
      reads this
    {
      State(positions, closedTrades, consecutiveLosses, lastLossClosedAt, symbolLastClosedAt, killswitchTripped,
            realizedPnl)
    }

    constructor (setup: Setup)
      ensures this.setup == setup && View() == EMPTY && LedgerFacts.Booked(setup, View())
    {
      this.setup := setup;
      positions, closedTrades, symbolLastClosedAt := map[], [], map[];
      consecutiveLosses, lastLossClosedAt := 0, None;
      killswitchTripped, realizedPnl := false, 0.0;
    }

    function Equity(): real
      reads this
    {
      if setup.compounding then setup.startingEquity + realizedPnl else setup.startingEquity
    }

    method TotalExposure() returns (total: real)
      ensures total == Exposure(View())
    {
      var sizes: map<Symbol, real> := map k | k in positions :: positions[k].size;
      assert sizes == Sizes(View());
      total := SumValues<Symbol>(sizes);
    }

    method AccountState(now: Time) returns (account: Risk.AccountState)
      ensures account == Account(setup, View(), now)
    {
      var exposure := TotalExposure();
      var daily := 0.0;
      for i := 0 to |closedTrades|
        invariant daily == PnlOn(closedTrades[..i], Date(now))
      {
        assert closedTrades[..i + 1][..i] == closedTrades[..i];
        if Date(closedTrades[i].exitTime) == Date(now) {
          daily := daily + closedTrades[i].pnl;
        }
      }
      assert closedTrades[..|closedTrades|] == closedTrades;
      var equity := Equity();
      account := Risk.AccountState(equity, Max(equity - exposure, 0.0), positions.Keys, exposure,
                                   if equity > 0.0 then Over(daily, equity) else 0.0, consecutiveLosses,
                                   lastLossClosedAt, symbolLastClosedAt);
    }

    method RecordClose(symbol: Symbol, exitTime: Time, exitPrice: real, reason: ExitReason)
      requires symbol in positions
      modifies this
      ensures View() == LedgerModel.RecordClose(setup, old(View()), symbol, exitTime, exitPrice, reason)
      ensures old(LedgerFacts.Booked(setup, View())) ==> LedgerFacts.Booked(setup, View())
    {
      LedgerFacts.ClosingKeepsBooksIf(setup, View(), symbol, exitTime, exitPrice, reason);
      var trade := TradeOf(setup, symbol, positions[symbol], exitTime, exitPrice, reason);
      closedTrades := closedTrades + [trade];
      realizedPnl := realizedPnl + trade.pnl;
      symbolLastClosedAt := symbolLastClosedAt[symbol := exitTime];
      if trade.pnl < 0.0 {
        consecutiveLosses := consecutiveLosses + 1;
        lastLossClosedAt := Some(exitTime);
      } else {
        consecutiveLosses := 0;
      }
      positions := positions - {symbol};
    }

    /** Raises the peak, then checks the stop, then the take-profit table. */
    method CheckStaticExit(symbol: Symbol, bar: Bar, closeTime: Time) returns (raised: bool)
      modifies this
      ensures raised <==> LedgerModel.CheckStaticExit(setup, old(View()), symbol, bar, closeTime).Failure?
      ensures !raised ==> LedgerModel.CheckStaticExit(setup, old(View()), symbol, bar, closeTime) == Success(View())
    {
      hide Times, Over;
      raised := false;
      if symbol !in positions {
        return;
      }
      var position := positions[symbol].(peakPrice := Max(positions[symbol].peakPrice, bar.high));
      positions := positions[symbol := position];
      if position.entryPrice == 0.0 {
        return true;
      }
      var stop := Max(position.stopLossPrice, Times(position.entryPrice, 1.0 + STATIC_STOPLOSS_PCT));
      var reason := AtrStoploss;
      if Over(position.peakPrice - position.entryPrice, position.entryPrice) >= TRAILING_ACTIVATION_PCT {
        var trailing := Times(position.peakPrice, 1.0 - TRAILING_DISTANCE_PCT);
        if trailing > stop {
          stop, reason := trailing, TrailingStop;
        }
      }
      if bar.low <= stop {
        RecordClose(symbol, closeTime, if bar.open < stop then Min(bar.open, stop) else stop, reason);
        return;
      }
      var threshold := RoiThreshold(closeTime - position.entryTime);
      if threshold.Some? {
        var price := Times(position.entryPrice, 1.0 + threshold.value);
        if bar.high >= price {
          RecordClose(symbol, closeTime, if bar.open > price then Max(bar.open, price) else price, MinimalRoi);
        }
      }
    }

    /** Opens a position when the evaluator approves the signal. */
    method ApplyEntry(signal: Risk.SignalView, config: Risk.RiskConfig, now: Time, fillPrice: real)
      returns (decision: Result<Risk.RiskDecision>)
      modifies this
      ensures decision == EntryDecision(setup, old(View()), signal, config, now)
      ensures decision.Success? ==>
                LedgerModel.ApplyEntry(setup, old(View()), signal, config, now, fillPrice) == Success(View())
      ensures decision.Failure? ==> View() == old(View())
    {
      var account := AccountState(now);
      decision := Risk.Evaluate(signal, account, config, now, killswitchTripped && !setup.ignoreKillswitch, false,
                                NO_EXPECTANCY);
      if decision.Failure? {
        return;
      }
      var result := decision.value;
      if result.autoTripKillswitch {
        killswitchTripped := true;
        if setup.ignoreKillswitch {
          consecutiveLosses := 0;
        }
      }
      if !result.approved {
        return;
      }
      var sizing := result.sizing.value;
      positions := positions[signal.symbol := Opened(setup, sizing, now, fillPrice)];
    }

    method ApplyExitSignal(signal: Risk.SignalView, config: Risk.RiskConfig, now: Time, fillPrice: real)
      returns (decision: Risk.ExitDecision)
      modifies this
      ensures View() == ApplyExit(setup, old(View()), signal, config, now, fillPrice)
      ensures decision.approved <==>
                now <= signal.candleTs + config.signalMaxAgeMinutes * MINUTE && signal.symbol in old(positions)
    {
      var account := AccountState(now);
      decision := Risk.EvaluateExit(signal, account, config, now, false);
      if decision.approved {
        RecordClose(signal.symbol, now, fillPrice, LlmSellSignal);
      }
    }
  }
}
