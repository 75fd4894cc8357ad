/** The historical replay simulator: the object that steps through candles in place, each method
    proved against the replay specification. */
module HistoricalReplay {
  import opened Arithmetic
  import opened Common
  import opened Replay
  import opened Sorting
  import opened Sums
  import Performance
  import ReplayExits
  import ReplayMoney
  import ReplayCausality
  import Risk

  /** An error aborts with the specified failure; no error leaves the specified state. */
  ghost predicate Meets(error: Option<Error>, spec: Result<State>, s: State) {
    if error.None? then spec == Success(s) else spec == Failure(error.value)
  }

  datatype Summary = Summary(
    startingEquity: real,
    endingEquity: real,
    netPnl: real,
    netReturnPct: real,
    grossPnl: real,
    fees: real,
    trades: nat,
    wins: nat,
    losses: nat,
    winRate: real,
    profitFactor: Option<real>,
    expectancy: real,
    maxDrawdownPct: real,
    openPositions: nat,
    pendingOrders: nat,
    rejectionCounts: multiset<Risk.RejectionReason>
  )

  function Equities(points: seq<EquityPoint>): seq<real> {
    seq(|points|, i requires 0 <= i < |points| => points[i].equity)
  }

  function Wins(trades: seq<Trade>): seq<Trade> {
    if trades == [] then [] else
      var t := trades[|trades| - 1];
      var earlier := Wins(trades[..|trades| - 1]);
      if t.netPnl > 0.0 then earlier + [t] else earlier
  }

  function Losses(trades: seq<Trade>): seq<Trade> {
    if trades == [] then [] else
      var t := trades[|trades| - 1];
      var earlier := Losses(trades[..|trades| - 1]);
      if t.netPnl < 0.0 then earlier + [t] else earlier
  }

  /** The decisions that gave a reason. */
  function RejectedFor(decisions: seq<Decision>, reason: Risk.RejectionReason): seq<Decision> {
    if decisions == [] then [] else
      var d := decisions[|decisions| - 1];
      var earlier := RejectedFor(decisions[..|decisions| - 1], reason);
      if d.rejectionReason == Some(reason) then earlier + [d] else earlier
  }

  /** Every reported figure in terms of the final state. */
  ghost predicate Summarises(r: Summary, cfg: Config, s: State)
    requires cfg.startingEquity != 0.0
  {
    var count := |s.trades|;
    && r.startingEquity == cfg.startingEquity && r.endingEquity == Equity(cfg, s)
    && r.netPnl == r.endingEquity - r.startingEquity
    && r.netReturnPct == Over(r.netPnl, r.startingEquity)
    && r.grossPnl == ReplayMoney.GrossTotal(s.trades) && r.fees == ReplayMoney.FeeTotal(s.trades)
    && r.trades == count && r.wins == |Wins(s.trades)| && r.losses == |Losses(s.trades)|
    && r.winRate == (if count == 0 then 0.0 else Over(|Wins(s.trades)| as real, count as real))
    && r.expectancy == (if count == 0 then 0.0 else Over(r.netPnl, count as real))
    && (r.profitFactor.Some? <==> Losses(s.trades) != [])
    && (r.profitFactor.Some? ==>
          && ReplayMoney.NetTotal(Losses(s.trades)) < 0.0
          && r.profitFactor.value == Over(ReplayMoney.NetTotal(Wins(s.trades)), -ReplayMoney.NetTotal(Losses(s.trades))))
    && r.maxDrawdownPct == Performance.Worst(0.0, Equities(s.equityCurve))
    && r.openPositions == |s.positions| && r.pendingOrders == |s.pending|
    && forall reason :: r.rejectionCounts[reason] == |RejectedFor(s.decisions, reason)|
  }

  lemma SummaryNames(r: Summary, cfg: Config, s: State)
    requires cfg.startingEquity != 0.0 && Summarises(r, cfg, s)
    ensures r.netPnl == Equity(cfg, s) - cfg.startingEquity
    ensures r.grossPnl == ReplayMoney.GrossTotal(s.trades) && r.fees == ReplayMoney.FeeTotal(s.trades)
    ensures r.openPositions == 0 <==> s.positions == map[]
    ensures r.maxDrawdownPct == Performance.Worst(0.0, Equities(s.equityCurve))
  {
  }

  /** A drawdown that is the worst pair of the curve, at most the whole of it. */
  ghost predicate ProperDrawdown(drawdown: real, curve: seq<real>) {
    0.0 <= drawdown <= 1.0 && Performance.WorstPair(curve, drawdown)
  }

  lemma SolventDrawdown(cfg: Config, s: State)
    requires forall i :: 0 <= i < |s.equityCurve| ==> s.equityCurve[i].equity >= 0.0
    ensures ProperDrawdown(Performance.Worst(0.0, Equities(s.equityCurve)), Equities(s.equityCurve))
  {
    var curve := Equities(s.equityCurve);
    Performance.WorstNonNegative(0.0, curve);
    Performance.OnePassIsWorstPair(0.0, curve);
    Performance.DropZeroStart(curve, Performance.Worst(0.0, curve));
    Performance.WithinUnit(0.0, curve);
  }

  /** What the summary of a whole replay says about it. */
  lemma SummaryOfRun(r: Summary, cfg: Config, signals: SignalIndex, candles: seq<Candle>, s: State)
    requires ValidConfig(cfg) && AllValid(candles) && Replay.Run(cfg, signals, candles) == Success(s)
    requires Summarises(r, cfg, s)
    ensures r.netPnl == r.grossPnl - r.fees + ReplayExits.Unrealised(cfg, s)
    ensures r.openPositions == 0 ==> r.netPnl == r.grossPnl - r.fees
    ensures ReplayMoney.ScalesNonNegative(cfg.risk, signals) ==>
              ProperDrawdown(r.maxDrawdownPct, Equities(s.equityCurve))
  {
    hide Step, Equity, Summarises, ProperDrawdown, ReplayMoney.ScalesNonNegative;
    ReplayExits.SummaryIdentity(cfg, signals, candles);
    SummaryNames(r, cfg, s);
    if ReplayMoney.ScalesNonNegative(cfg.risk, signals) {
      ReplayMoney.RunStaysSolvent(cfg, signals, candles);
      SolventDrawdown(cfg, s);
    }
  }

  lemma {:induction false} LosingIffLosses(trades: seq<Trade>)
    ensures if Losses(trades) == [] then true else ReplayMoney.NetTotal(Losses(trades)) < 0.0
  {
    if trades != [] {
      var earlier := trades[..|trades| - 1];
      LosingIffLosses(earlier);
      ReplayMoney.TotalsAppend(Losses(earlier), trades[|trades| - 1]);
    }
  }

  class ReplaySimulator {
    const config: Config
    var cash: real
    var positions: map<Symbol, OpenPosition>
    var pending: map<Symbol, PendingOrder>
    var trades: seq<Trade>
    var decisions: seq<Decision>
    var equityCurve: seq<EquityPoint>
    var lastPrices: map<Symbol, real>
    var killswitchEnabled: bool

    ghost function Snapshot(): State
      reads this
    {
      State(cash, positions, pending, trades, decisions, equityCurve, lastPrices, killswitchEnabled)
    }

    constructor (config: Config)
      ensures this.config == config && Snapshot() == Init(config)
    {
      this.config := config;
      cash := config.startingEquity;
      positions, pending, lastPrices := map[], map[], map[];
      trades, decisions, equityCurve := [], [], [];
      killswitchEnabled := false;
    }

    /** Sorts the candles and rejects repeated or overlapping ones. */
    static method ValidateAndOrderCandles(candles: seq<Candle>) returns (result: Result<seq<Candle>>)
      ensures result == ValidateAndOrder(candles)
    {
      hide Sort, CheckOrdered, LastClose;
      if candles == [] {
        return Failure(NoCandles);
      }
      var ordered := Sort(candles, OpensFirst);
      NothingChecked(ordered);
      var seen: set<(Symbol, Time)> := {};
      var lastClose: map<Symbol, Time> := map[];
      for i := 0 to |ordered|
        invariant CheckOrdered(ordered[..i]).None?
        invariant forall s, t :: (s, t) in seen <==>
                    exists k :: 0 <= k < i && ordered[k].symbol == s && ordered[k].openTime == t
        invariant forall s :: s in lastClose <==> LastClose(ordered[..i], s).Some?
        invariant forall s :: s in lastClose ==> LastClose(ordered[..i], s) == Some(lastClose[s])
      {
        var c := ordered[i];
        CheckNext(ordered, i);
        if (c.symbol, c.openTime) in seen {
          FirstFailureWins(ordered, i + 1);
          return Failure(RepeatedCandle);
        }
        if c.symbol in lastClose && c.openTime < lastClose[c.symbol] {
          FirstFailureWins(ordered, i + 1);
          return Failure(OverlappingCandles);
        }
        seen := seen + {(c.symbol, c.openTime)};
        lastClose := lastClose[c.symbol := c.closeTime];
      }
      assert ordered[..|ordered|] == ordered;
      result := Success(ordered);
    }

    /** Indexes the signals by symbol and candle close, rejecting a repeated key. */
    static method IndexSignalRows(signals: seq<Signal>) returns (result: Result<SignalIndex>)
      ensures result == IndexSignals(signals)
    {
      var indexed: SignalIndex := map[];
      for i := 0 to |signals|
        invariant IndexSignals(signals[..i]) == Success(indexed)
      {
        assert signals[..i + 1][..i] == signals[..i];
        var key := (signals[i].symbol, signals[i].candleCloseTime);
        if key in indexed {
          RepeatedKeyStays(signals, i + 1);
          return Failure(RepeatedSignal);
        }
        indexed := indexed[key := signals[i]];
      }
      assert signals[..|signals|] == signals;
      result := Success(indexed);
    }

    method ClosePosition(symbol: Symbol, closedAt: Time, reference: real, exitPrice: real, reason: ExitReason)
      returns (error: Option<Error>)
      requires symbol in positions
      modifies this
      ensures Meets(error, Replay.ClosePosition(config, old(Snapshot()), symbol, closedAt, reference, exitPrice, reason),
                    Snapshot())
    {
      var position := positions[symbol];
      positions := positions - {symbol};
      var grossExit := Times(position.amount, exitPrice);
      var exitFee := Times(grossExit, config.feeRate);
      var proceeds := grossExit - exitFee;
      cash := cash + proceeds;
      var grossPnl := Times(position.amount, exitPrice - position.entryPrice);
      var netPnl := proceeds - position.stake - position.entryFee;
      var totalCost := position.stake + position.entryFee;
      if totalCost == 0.0 {
        return Some(DivisionByZero);
      }
      trades := trades + [Trade(symbol, position.openedAt, closedAt, position.entryReference, position.entryPrice,
                                reference, exitPrice, position.amount, position.stake, position.entryFee, exitFee,
                                grossPnl, netPnl, Over(netPnl, totalCost), reason)];
      error := None;
    }

    method ExecutePending(candle: Candle) returns (error: Option<Error>)
      requires ValidConfig(config) && ValidCandle(candle)
      modifies this
      ensures Meets(error, Replay.ExecutePending(config, old(Snapshot()), candle), Snapshot())
    {
      error := None;
      if candle.symbol !in pending || candle.openTime < pending[candle.symbol].signalTime {
        return;
      }
      var order := pending[candle.symbol];
      pending := pending - {candle.symbol};
      match order
      case BuyOrder(_, stake) =>
        var entryFee := Times(stake, config.feeRate);
        var totalCost := stake + entryFee;
        if totalCost > cash || candle.symbol in positions {
          return;
        }
        cash := cash - totalCost;
        positions := positions[candle.symbol := Opened(config, candle, stake)];
      case SellOrder(_) =>
        if candle.symbol in positions {
          error := ClosePosition(candle.symbol, candle.openTime, candle.open, SellFill(config, candle.open), SignalExit);
        }
    }

    method ApplySafetyExits(candle: Candle) returns (error: Option<Error>)
      requires ValidConfig(config)
      modifies this
      ensures Meets(error, Replay.ApplySafetyExits(config, old(Snapshot()), candle), Snapshot())
    {
      error := None;
      if candle.symbol !in positions {
        return;
      }
      var position := positions[candle.symbol];
      if candle.low <= position.stopPrice {
        error := ClosePosition(candle.symbol, candle.closeTime, position.stopPrice,
                               SellFill(config, position.stopPrice), StopLoss);
        return;
      }
      if Cost(position) == 0.0 {
        return Some(DivisionByZero);
      }
      var target := RoiTarget(candle.closeTime - position.openedAt);
      var openFill := SellFill(config, candle.open);
      if NetReturnAtPrice(config, position, openFill) >= target {
        error := ClosePosition(candle.symbol, candle.openTime, candle.open, openFill, Roi);
        return;
      }
      if Times(position.amount, 1.0 - config.feeRate) == 0.0 {
        return Some(DivisionByZero);
      }
      var targetFill := PriceForNetReturn(config, position, target);
      var trigger := Trigger(config, targetFill);
      if candle.high >= trigger {
        error := ClosePosition(candle.symbol, candle.closeTime, trigger, targetFill, Roi);
      }
    }

    method GetEquity() returns (equity: real)
      ensures equity == Equity(config, Snapshot())
    {
      var values: map<Symbol, real> := map k | k in positions ::
        Times(Times(positions[k].amount, if k in lastPrices then lastPrices[k] else positions[k].entryPrice),
              1.0 - config.feeRate);
      var liquidation := SumValues<Symbol>(values);
      assert values == MarkValues(config, Snapshot());
      equity := cash + liquidation;
    }

    /** The two sums over waiting entries: reserved cash with fees, and bare stakes. */
    method PendingTotals() returns (open: set<Symbol>, reserved: real, stakes: real)
      ensures open == PendingBuys(Snapshot())
      ensures reserved == Total(ReservedCash(config, Snapshot())) && stakes == Total(PendingStakes(Snapshot()))
    {
      open := set k | k in pending && pending[k].BuyOrder?;
      var costs: map<Symbol, real> := map k | k in open :: Times(pending[k].stake, 1.0 + config.feeRate);
      var bare: map<Symbol, real> := map k | k in open :: pending[k].stake;
      reserved := SumValues<Symbol>(costs);
      stakes := SumValues<Symbol>(bare);
      assert costs == ReservedCash(config, Snapshot()) && bare == PendingStakes(Snapshot());
    }

    /** The losing run at the head of the closes, and the first close seen for each symbol. */
    static method WalkCloses(desc: seq<Trade>) returns (losses: nat, lastLoss: Option<Time>, closes: map<Symbol, Time>)
      ensures losses == LosingRun(desc) && closes == FirstCloses(desc)
      ensures lastLoss == if losses > 0 then Some(desc[0].closedAt) else None
    {
      losses, lastLoss := 0, None;
      while losses < |desc| && desc[losses].netPnl < 0.0
        invariant losses <= |desc| && LosingRun(desc) == losses + LosingRun(desc[losses..])
        invariant lastLoss == if losses > 0 then Some(desc[0].closedAt) else None
      {
        if lastLoss.None? {
          lastLoss := Some(desc[losses].closedAt);
        }
        losses := losses + 1;
      }
      closes := map[];
      for i := 0 to |desc|
        invariant closes == FirstCloses(desc[..i])
      {
        assert desc[..i + 1][..i] == desc[..i];
        if desc[i].symbol !in closes {
          closes := closes[desc[i].symbol := desc[i].closedAt];
        }
      }
      assert desc[..|desc|] == desc;
    }

    method DailyPnl(date: int) returns (daily: real)
      ensures daily == PnlOn(trades, date)
    {
      daily := 0.0;
      for i := 0 to |trades|
        invariant daily == PnlOn(trades[..i], date)
      {
        assert trades[..i + 1][..i] == trades[..i];
        if Date(trades[i].closedAt) == date {
          daily := daily + trades[i].netPnl;
        }
      }
      assert trades[..|trades|] == trades;
    }

    method GetAccountState(now: Time) returns (account: Risk.AccountState)
      ensures account == AccountState(config, Snapshot(), now)
    {
      var equity := GetEquity();
      var pendingEntries, reserved, pendingStakes := PendingTotals();
      var stakes: map<Symbol, real> := map k | k in positions :: positions[k].stake;
      var held := SumValues<Symbol>(stakes);
      assert stakes == PositionStakes(Snapshot());
      var losses, lastLoss, closes := WalkCloses(ClosedDesc(trades));
      var daily := DailyPnl(Date(now));
      account := Risk.AccountState(equity, Max(cash - reserved, 0.0), positions.Keys + pendingEntries,
                                   held + pendingStakes, if equity > 0.0 then Over(daily, equity) else 0.0, losses,
                                   lastLoss, closes);
    }

    method ProcessSignal(candle: Candle, signal: Signal) returns (error: Option<Error>)
      modifies this
      ensures Meets(error, Replay.ProcessSignal(config, old(Snapshot()), candle, signal), Snapshot())
    {
      error := None;
      if signal.symbol != candle.symbol || signal.candleCloseTime != candle.closeTime {
        return Some(SignalCandleMismatch);
      }
      var account := GetAccountState(candle.closeTime);
      var duplicate := signal.symbol in pending;
      if signal.action == Risk.SELL {
        var exit := Risk.EvaluateExit(Replay.View(candle, signal), account, config.risk, candle.closeTime, duplicate);
        if exit.approved {
          pending := pending[signal.symbol := SellOrder(signal.candleCloseTime)];
        }
        RecordDecision(signal, exit.approved, exit.rejectionReason, SellSide);
      } else {
        var evaluated := Risk.Evaluate(Replay.View(candle, signal), account, config.risk, candle.closeTime,
                                       killswitchEnabled, duplicate, NO_EXPECTANCY);
        if evaluated.Failure? {
          return Some(evaluated.error);
        }
        var entry := evaluated.value;
        if entry.autoTripKillswitch {
          killswitchEnabled := true;
        }
        if entry.approved {
          pending := pending[signal.symbol := BuyOrder(signal.candleCloseTime, entry.sizing.value.positionSize)];
        }
        RecordDecision(signal, entry.approved, entry.rejectionReason, BuySide);
      }
    }

    method RecordDecision(signal: Signal, approved: bool, reason: Option<Risk.RejectionReason>, side: Side)
      modifies this`decisions
      ensures decisions == old(decisions) + [Decision(signal.symbol, signal.candleCloseTime, signal.action,
                                                      signal.confidence, approved, reason,
                                                      if approved then Some(side) else None)]
    {
      decisions := decisions + [Decision(signal.symbol, signal.candleCloseTime, signal.action, signal.confidence, approved, reason,
                                         if approved then Some(side) else None)];
    }

    method RecordEquity(timestamp: Time)
      modifies this`equityCurve
      ensures Snapshot() == Recorded(config, old(Snapshot()), timestamp)
    {
      var equity := GetEquity();
      equityCurve := equityCurve + [EquityPoint(timestamp, equity)];
    }

    /** One iteration of the candle loop. */
    method ProcessCandle(signals: SignalIndex, candle: Candle) returns (error: Option<Error>)
      requires ValidConfig(config) && ValidCandle(candle)
      modifies this
      ensures Meets(error, Step(config, signals, old(Snapshot()), candle), Snapshot())
    {
      error := ExecutePending(candle);
      if error.Some? {
        return;
      }
      error := ApplySafetyExits(candle);
      if error.Some? {
        return;
      }
      lastPrices := lastPrices[candle.symbol := candle.close];
      if (candle.symbol, candle.closeTime) in signals {
        error := ProcessSignal(candle, signals[(candle.symbol, candle.closeTime)]);
        if error.Some? {
          return;
        }
      }
      RecordEquity(candle.closeTime);
    }

    /** The whole replay. On success the reported net P&L is gross minus fees plus what open positions
        gained on paper; and unless some admissible signal is sized by a negative scale, the drawdown is a
        proper fraction, the worst pair of the equity curve. */
    method Run(candles: seq<Candle>, signals: seq<Signal>) returns (result: Result<Summary>)
      requires ValidConfig(config) && AllValid(candles) && Snapshot() == Init(config)
      modifies this
      ensures result.Success? ==>
                && ValidateAndOrder(candles).Success? && IndexSignals(signals).Success?
                && AllValid(ValidateAndOrder(candles).value)
                && Replay.Run(config, IndexSignals(signals).value, ValidateAndOrder(candles).value) == Success(Snapshot())
      ensures result.Success? ==>
                var summary := result.value;
                && Summarises(summary, config, Snapshot())
                && summary.netPnl == summary.grossPnl - summary.fees + ReplayExits.Unrealised(config, Snapshot())
                && (summary.openPositions == 0 ==> summary.netPnl == summary.grossPnl - summary.fees)
                && (ReplayMoney.ScalesNonNegative(config.risk, IndexSignals(signals).value) ==>
                      ProperDrawdown(summary.maxDrawdownPct, Equities(equityCurve)))
      ensures result.Failure? ==>
                || ValidateAndOrder(candles) == Failure(result.error)
                || IndexSignals(signals) == Failure(result.error)
                || (ValidateAndOrder(candles).Success? && IndexSignals(signals).Success?
                    && AllValid(ValidateAndOrder(candles).value)
                    && Replay.Run(config, IndexSignals(signals).value, ValidateAndOrder(candles).value)
                       == Failure(result.error))
    {
      hide Step, CheckOrdered, Sort, Equity, Summarises, ProperDrawdown, ReplayMoney.ScalesNonNegative;
      var validated := ValidateAndOrderCandles(candles);
      if validated.Failure? {
        return Failure(validated.error);
      }
      var indexed := IndexSignalRows(signals);
      if indexed.Failure? {
        return Failure(indexed.error);
      }
      var ordered, index := validated.value, indexed.value;
      ReplayCausality.OrderedValid(candles);
      for i := 0 to |ordered|
        invariant AllValid(ordered[..i])
        invariant Replay.Run(config, index, ordered[..i]) == Success(Snapshot())
      {
        assert ordered[..i + 1][..i] == ordered[..i];
        var error := ProcessCandle(index, ordered[i]);
        if error.Some? {
          RaisedRunStaysRaised(config, index, ordered, i + 1);
          return Failure(error.value);
        }
      }
      assert ordered[..|ordered|] == ordered;
      var summary := BuildSummary();
      SummaryOfRun(summary, config, index, ordered, Snapshot());
      result := Success(summary);
    }

    method BuildSummary() returns (summary: Summary)
      requires ValidConfig(config)
      ensures Summarises(summary, config, Snapshot())
      ensures (forall i :: 0 <= i < |equityCurve| ==> equityCurve[i].equity >= 0.0) ==>
                ProperDrawdown(summary.maxDrawdownPct, Equities(equityCurve))
    {
      var ending := GetEquity();
      var netPnl := ending - config.startingEquity;
      var wins, losses, winning, losing := CountOutcomes(trades);
      var count := |trades|;
      var drawdown := Performance.MaximumDrawdown(Equities(equityCurve));
      if forall i :: 0 <= i < |equityCurve| ==> equityCurve[i].equity >= 0.0 {
        SolventDrawdown(config, Snapshot());
      }
      LosingIffLosses(trades);
      var rejections := CountRejections(decisions);
      summary := Summary(config.startingEquity, ending, netPnl, Over(netPnl, config.startingEquity),
                         ReplayMoney.GrossTotal(trades), ReplayMoney.FeeTotal(trades), count, wins, losses,
                         if count > 0 then Over(wins as real, count as real) else 0.0,
                         if losing > 0.0 then Some(Over(winning, losing)) else None,
                         if count > 0 then Over(netPnl, count as real) else 0.0,
                         drawdown, |positions|, |pending|, rejections);
    }

    /** How often each reason was given. */
    static method CountRejections(decisions: seq<Decision>) returns (counts: multiset<Risk.RejectionReason>)
      ensures forall r :: counts[r] == |RejectedFor(decisions, r)|
    {
      counts := multiset{};
      for i := 0 to |decisions|
        invariant forall r :: counts[r] == |RejectedFor(decisions[..i], r)|
      {
        assert decisions[..i + 1][..i] == decisions[..i];
        if decisions[i].rejectionReason.Some? {
          counts := counts + multiset{decisions[i].rejectionReason.value};
        }
      }
      assert decisions[..|decisions|] == decisions;
    }

    /** Wins, losses, and the two halves of the realised P&L. */
    static method CountOutcomes(trades: seq<Trade>) returns (wins: nat, losses: nat, winning: real, losing: real)
      ensures wins == |Wins(trades)| && losses == |Losses(trades)|
      ensures winning == ReplayMoney.NetTotal(Wins(trades)) && losing == -ReplayMoney.NetTotal(Losses(trades))
      ensures winning - losing == ReplayMoney.NetTotal(trades) && winning >= 0.0 && losing >= 0.0
      ensures (losing > 0.0 <==> losses > 0) && (winning > 0.0 <==> wins > 0)
    {
      wins, losses, winning, losing := 0, 0, 0.0, 0.0;
      for i := 0 to |trades|
        invariant wins == |Wins(trades[..i])| && losses == |Losses(trades[..i])|
        invariant winning == ReplayMoney.NetTotal(Wins(trades[..i]))
        invariant losing == -ReplayMoney.NetTotal(Losses(trades[..i]))
        invariant winning - losing == ReplayMoney.NetTotal(trades[..i]) && winning >= 0.0 && losing >= 0.0
        invariant (losing > 0.0 <==> losses > 0) && (winning > 0.0 <==> wins > 0)
      {
        assert trades[..i + 1][..i] == trades[..i];
        ReplayMoney.TotalsAppend(Wins(trades[..i]), trades[i]);
        ReplayMoney.TotalsAppend(Losses(trades[..i]), trades[i]);
        if trades[i].netPnl > 0.0 {
          wins, winning := wins + 1, winning + trades[i].netPnl;
        } else if trades[i].netPnl < 0.0 {
          losses, losing := losses + 1, losing - trades[i].netPnl;
        }
      }
      assert trades[..|trades|] == trades;
    }
  }

  // ------------------------------------------------- loops that stop early

  lemma NothingChecked(ordered: seq<Candle>)
    ensures CheckOrdered(ordered[..0]).None? && forall s :: LastClose(ordered[..0], s).None?
  {
  }

  /** What one more candle adds to the two checks. */
  lemma CheckNext(ordered: seq<Candle>, i: nat)
    requires i < |ordered| && CheckOrdered(ordered[..i]).None?
    ensures var c := ordered[i];
            && (forall s :: LastClose(ordered[..i + 1], s)
                            == if s == c.symbol then Some(c.closeTime) else LastClose(ordered[..i], s))
            && CheckOrdered(ordered[..i + 1])
               == if exists k :: 0 <= k < i && ordered[k].symbol == c.symbol && ordered[k].openTime == c.openTime
                  then Some(RepeatedCandle)
                  else if LastClose(ordered[..i], c.symbol).Some? && c.openTime < LastClose(ordered[..i], c.symbol).value
                  then Some(OverlappingCandles)
                  else None
  {
    var head, more := ordered[..i], ordered[..i + 1];
    assert |more| == i + 1 && more[..i] == head && more[i] == ordered[i];
    forall s ensures LastClose(more, s) == if s == ordered[i].symbol then Some(ordered[i].closeTime) else LastClose(head, s) {
      assert more[..|more| - 1] == head;
    }
    assert forall k :: 0 <= k < i ==> head[k] == ordered[k];
  }

  lemma {:induction false} FirstFailureWins(ordered: seq<Candle>, n: nat)
    requires n <= |ordered| && CheckOrdered(ordered[..n]).Some?
    ensures CheckOrdered(ordered) == CheckOrdered(ordered[..n])
  {
    if n == |ordered| {
      assert ordered[..n] == ordered;
    } else {
      assert ordered[..|ordered| - 1][..n] == ordered[..n];
      FirstFailureWins(ordered[..|ordered| - 1], n);
    }
  }

  lemma {:induction false} RepeatedKeyStays(signals: seq<Signal>, n: nat)
    requires n <= |signals| && IndexSignals(signals[..n]).Failure?
    ensures IndexSignals(signals) == IndexSignals(signals[..n])
  {
    if n == |signals| {
      assert signals[..n] == signals;
    } else {
      assert signals[..|signals| - 1][..n] == signals[..n];
      RepeatedKeyStays(signals[..|signals| - 1], n);
    }
  }

  lemma {:induction false} RaisedRunStaysRaised(cfg: Config, index: SignalIndex, ordered: seq<Candle>, n: nat)
    requires ValidConfig(cfg) && AllValid(ordered) && n <= |ordered|
    requires Run(cfg, index, ordered[..n]).Failure?
    ensures Run(cfg, index, ordered) == Run(cfg, index, ordered[..n])
  {
    if n == |ordered| {
      assert ordered[..n] == ordered;
    } else {
      assert ordered[..|ordered| - 1][..n] == ordered[..n];
      RaisedRunStaysRaised(cfg, index, ordered[..|ordered| - 1], n);
    }
  }
}
