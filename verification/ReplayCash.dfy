/** When an approved entry is dropped for cash: the reservation of pending entries covers their fees,
    but the size cap does not, so only the fee of the newest approval can break the coverage. */
module ReplayCash {
  import opened Arithmetic
  import opened Common
  import opened Replay
  import opened ReplayMoney
  import opened ReplayOrders
  import opened Sums
  import Risk
  import RiskFacts

  /** The cash on hand pays for every waiting entry, fees included. */
  ghost predicate Covered(cfg: Config, s: State) {
    Total(ReservedCash(cfg, s)) <= s.cash
  }

  lemma CostWithFee(cfg: Config, stake: real)
    ensures stake + Times(stake, cfg.feeRate) == Times(stake, 1.0 + cfg.feeRate)
  {
  }

  lemma ReservedNonNegative(cfg: Config, s: State)
    requires ValidConfig(cfg) && NoneOwed(s)
    ensures Total(ReservedCash(cfg, s)) >= 0.0
  {
    forall k | k in ReservedCash(cfg, s) ensures ReservedCash(cfg, s)[k] >= 0.0 {
      TimesSign(s.pending[k].stake, 1.0 + cfg.feeRate);
    }
    TotalNonNegative(ReservedCash(cfg, s));
  }

  lemma ExecuteKeepsCovered(cfg: Config, s: State, earlier: seq<Candle>, c: Candle)
    requires ValidConfig(cfg) && ValidCandle(c) && Solvent(cfg, s) && NoneOwed(s) && Coupled(earlier, s) && Covered(cfg, s)
    requires ExecutePending(cfg, s, c).Success?
    ensures !Drops(cfg, s, c)
    ensures Covered(cfg, ExecutePending(cfg, s, c).value)
  {
    if Due(s, c) {
      var t := ExecutePending(cfg, s, c).value;
      if s.pending[c.symbol].BuyOrder? {
        var stake := s.pending[c.symbol].stake;
        CostWithFee(cfg, stake);
        TotalRemove(ReservedCash(cfg, s), c.symbol);
        var taken := TakePending(s, c.symbol);
        assert ReservedCash(cfg, taken) == ReservedCash(cfg, s) - {c.symbol};
        ReservedNonNegative(cfg, taken);
        assert ReservedCash(cfg, t) == ReservedCash(cfg, taken);
      } else {
        assert ReservedCash(cfg, t) == ReservedCash(cfg, s);
        TimesSign(c.open, 1.0 - cfg.slippageRate);
        ProceedsNonNegative(cfg, s.positions[c.symbol], SellFill(cfg, c.open));
      }
    }
  }

  lemma SafetyKeepsCovered(cfg: Config, s: State, c: Candle)
    requires ValidConfig(cfg) && ValidCandle(c) && Solvent(cfg, s) && Covered(cfg, s)
    requires ApplySafetyExits(cfg, s, c).Success?
    ensures Covered(cfg, ApplySafetyExits(cfg, s, c).value)
  {
    SafetyExitsAddCash(cfg, s, c);
    assert ReservedCash(cfg, ApplySafetyExits(cfg, s, c).value) == ReservedCash(cfg, s);
  }

  lemma SafetyExitsAddCash(cfg: Config, s: State, c: Candle)
    requires ValidConfig(cfg) && ValidCandle(c) && Solvent(cfg, s)
    requires ApplySafetyExits(cfg, s, c).Success?
    ensures ApplySafetyExits(cfg, s, c).value.cash >= s.cash
    ensures ApplySafetyExits(cfg, s, c).value.pending == s.pending
  {
    if c.symbol in s.positions && s.positions[c.symbol].stake != 0.0 {
      var p := s.positions[c.symbol];
      var target := RoiTarget(c.closeTime - p.openedAt);
      TargetFillPositive(cfg, p, target);
      TimesSign(p.entryPrice, 1.0 - cfg.staticStopLossPct);
      TimesSign(p.stopPrice, 1.0 - cfg.slippageRate);
      TimesSign(c.open, 1.0 - cfg.slippageRate);
      ProceedsNonNegative(cfg, p, SellFill(cfg, p.stopPrice));
      ProceedsNonNegative(cfg, p, SellFill(cfg, c.open));
      ProceedsNonNegative(cfg, p, PriceForNetReturn(cfg, p, target));
    }
  }

  lemma SettleKeepsCovered(cfg: Config, s: State, earlier: seq<Candle>, c: Candle)
    requires ValidConfig(cfg) && ValidCandle(c) && CheckOrdered(earlier + [c]).None?
    requires Solvent(cfg, s) && NoneOwed(s) && Coupled(earlier, s) && Covered(cfg, s)
    requires Settle(cfg, s, c).Success?
    ensures !Drops(cfg, s, c)
    ensures Covered(cfg, Settle(cfg, s, c).value) && c.symbol !in Settle(cfg, s, c).value.pending
  {
    ExecuteKeepsCovered(cfg, s, earlier, c);
    ExecuteKeepsSolvent(cfg, s, c);
    var filled := ExecutePending(cfg, s, c).value;
    SafetyKeepsCovered(cfg, filled, c);
    assert ReservedCash(cfg, Settle(cfg, s, c).value) == ReservedCash(cfg, ApplySafetyExits(cfg, filled, c).value);
    PendingConsumedAtNextCandle(cfg, s, earlier, c);
  }

  /** The newest approval, if an entry, fits the unreserved cash with its fee. */
  ghost predicate Fits(cfg: Config, s: State, e: Effect) {
    e.Queued? && e.order.BuyOrder? ==>
      Times(e.order.stake, 1.0 + cfg.feeRate) <= s.cash - Total(ReservedCash(cfg, s))
  }

  lemma AppliedCoveredIff(cfg: Config, s: State, symbol: Symbol, killswitch: bool, e: Effect)
    requires symbol !in s.pending && Covered(cfg, s)
    ensures Covered(cfg, Applied(s, symbol, killswitch, e)) <==> Fits(cfg, s, e)
  {
    var t := Applied(s, symbol, killswitch, e);
    AppliedBuys(s, symbol, killswitch, e);
    if e.Queued? && e.order.BuyOrder? {
      var cost := Times(e.order.stake, 1.0 + cfg.feeRate);
      TotalInsert(ReservedCash(cfg, s), symbol, cost);
      assert ReservedCash(cfg, t) == ReservedCash(cfg, s)[symbol := cost];
    } else {
      assert ReservedCash(cfg, t) == ReservedCash(cfg, s);
    }
  }

  lemma DecidedCoveredIff(cfg: Config, signals: SignalIndex, s: State, c: Candle) returns (e: Effect)
    requires c.symbol !in s.pending && Covered(cfg, s)
    requires Decided(cfg, signals, s, c).Success?
    ensures Lawful(cfg, s, c, e)
    ensures Decided(cfg, signals, s, c).value.pending == Applied(s, c.symbol, false, e).pending
    ensures Covered(cfg, Decided(cfg, signals, s, c).value) <==> Fits(cfg, s, e)
  {
    e := DecisionEffect(cfg, signals, s, c);
    AppliedCoveredIff(cfg, s, c.symbol, Decided(cfg, signals, s, c).value.killswitch, e);
  }

  lemma RecordingKeepsCoverage(cfg: Config, s: State, timestamp: Time)
    ensures Covered(cfg, Recorded(cfg, s, timestamp)) <==> Covered(cfg, s)
  {
    assert ReservedCash(cfg, Recorded(cfg, s, timestamp)) == ReservedCash(cfg, s);
  }

  /** A candle drops nothing while the waiting entries are covered, and leaves them covered exactly
      when the entry it approves, if any, fits the unreserved cash together with its fee. */
  lemma StepCoveredIff(cfg: Config, signals: SignalIndex, s: State, earlier: seq<Candle>, c: Candle)
    returns (settled: State, e: Effect)
    requires ValidConfig(cfg) && ValidCandle(c) && CheckOrdered(earlier + [c]).None?
    requires Solvent(cfg, s) && NoneOwed(s) && Coupled(earlier, s) && Covered(cfg, s)
    requires Step(cfg, signals, s, c).Success?
    ensures !Drops(cfg, s, c)
    ensures Settle(cfg, s, c) == Success(settled) && Lawful(cfg, settled, c, e)
    ensures Step(cfg, signals, s, c).value.pending == Applied(settled, c.symbol, false, e).pending
    ensures Covered(cfg, Step(cfg, signals, s, c).value) <==> Fits(cfg, settled, e)
  {
    settled := Settle(cfg, s, c).value;
    SettleKeepsCovered(cfg, s, earlier, c);
    e := DecidedCoveredIff(cfg, signals, settled, c);
    RecordingKeepsCoverage(cfg, Decided(cfg, signals, settled, c).value, c.closeTime);
  }

  /** What pays for all waiting entries pays for each. */
  lemma CoveredDropsNothing(cfg: Config, s: State, earlier: seq<Candle>, c: Candle)
    requires ValidConfig(cfg) && Coupled(earlier, s) && Covered(cfg, s) && NoneOwed(s)
    ensures !Drops(cfg, s, c)
  {
    if Due(s, c) && s.pending[c.symbol].BuyOrder? {
      CostWithFee(cfg, s.pending[c.symbol].stake);
      TotalRemove(ReservedCash(cfg, s), c.symbol);
      var others := ReservedCash(cfg, s) - {c.symbol};
      forall k | k in others ensures others[k] >= 0.0 {
        TimesSign(s.pending[k].stake, 1.0 + cfg.feeRate);
      }
      TotalNonNegative(others);
    }
  }

  /** Covered after the first `n` candles, if the replay gets that far. */
  ghost predicate CoveredAfter(cfg: Config, signals: SignalIndex, candles: seq<Candle>, n: nat)
    requires ValidConfig(cfg) && AllValid(candles) && n <= |candles|
  {
    Run(cfg, signals, candles[..n]).Success? ==>
      Covered(cfg, Run(cfg, signals, candles[..n]).value) && NoneOwed(Run(cfg, signals, candles[..n]).value)
  }

  /** No entry is dropped in a replay whose waiting entries are covered after every candle. */
  lemma {:induction false} CoveredEntriesAreFilled(cfg: Config, signals: SignalIndex, candles: seq<Candle>)
    requires ValidConfig(cfg) && AllValid(candles) && CheckOrdered(candles).None?
    requires Run(cfg, signals, candles).Success?
    requires forall n :: 0 <= n < |candles| ==> CoveredAfter(cfg, signals, candles, n)
    ensures Dropped(cfg, signals, candles) == 0
  {
    if candles != [] {
      var earlier := candles[..|candles| - 1];
      assert CoveredAfter(cfg, signals, candles, |candles| - 1);
      LastCandleDropsNothing(cfg, signals, candles);
      forall n | 0 <= n < |earlier| ensures CoveredAfter(cfg, signals, earlier, n) {
        assert CoveredAfter(cfg, signals, candles, n) && earlier[..n] == candles[..n];
      }
      CoveredEntriesAreFilled(cfg, signals, earlier);
    }
  }

  lemma LastCandleDropsNothing(cfg: Config, signals: SignalIndex, candles: seq<Candle>)
    requires ValidConfig(cfg) && AllValid(candles) && CheckOrdered(candles).None?
    requires candles != [] && Run(cfg, signals, candles).Success?
    requires CoveredAfter(cfg, signals, candles, |candles| - 1)
    ensures CheckOrdered(candles[..|candles| - 1]).None? && Run(cfg, signals, candles[..|candles| - 1]).Success?
    ensures Dropped(cfg, signals, candles) == Dropped(cfg, signals, candles[..|candles| - 1])
  {
    hide Step, Covered, NoneOwed, Coupled;
    var earlier := candles[..|candles| - 1];
    var c := candles[|candles| - 1];
    assert earlier + [c] == candles;
    NextCandleFits(earlier, c);
    RunStaysCoupled(cfg, signals, earlier);
    CoveredDropsNothing(cfg, Run(cfg, signals, earlier).value, earlier, c);
  }

  /** An entry queued by a decision was allowed at most the unreserved cash. */
  lemma QueuedWithinFreeBalance(cfg: Config, signals: SignalIndex, s: State, c: Candle)
    requires c.symbol !in s.pending
    requires Decided(cfg, signals, s, c).Success?
    ensures var t := Decided(cfg, signals, s, c).value;
            c.symbol in PendingBuys(t) ==>
              t.pending[c.symbol].stake <= Max(s.cash - Total(ReservedCash(cfg, s)), 0.0)
  {
    if (c.symbol, c.closeTime) in signals {
      var signal := signals[(c.symbol, c.closeTime)];
      if signal.action != Risk.SELL {
        StakeWithinFreeBalance(View(c, signal), AccountState(cfg, s, c.closeTime), cfg.risk, c.closeTime,
                               s.killswitch, signal.symbol in s.pending);
      }
    }
  }

  lemma FreeEntryFits(cfg: Config, signals: SignalIndex, s: State, c: Candle)
    requires ValidConfig(cfg) && cfg.feeRate == 0.0
    requires Covered(cfg, s) && c.symbol !in s.pending
    requires Decided(cfg, signals, s, c).Success?
    ensures Covered(cfg, Decided(cfg, signals, s, c).value)
  {
    var e := DecisionEffect(cfg, signals, s, c);
    QueuedWithinFreeBalance(cfg, signals, s, c);
    FreeFit(cfg, s, c, Decided(cfg, signals, s, c).value.killswitch, e);
  }

  lemma FreeFit(cfg: Config, s: State, c: Candle, killswitch: bool, e: Effect)
    requires cfg.feeRate == 0.0 && Covered(cfg, s) && c.symbol !in s.pending
    requires var t := Applied(s, c.symbol, killswitch, e);
             c.symbol in PendingBuys(t) ==>
               t.pending[c.symbol].stake <= Max(s.cash - Total(ReservedCash(cfg, s)), 0.0)
    ensures Covered(cfg, Applied(s, c.symbol, killswitch, e))
  {
    AppliedBuys(s, c.symbol, killswitch, e);
    if e.Queued? && e.order.BuyOrder? {
      assert Times(e.order.stake, 1.0) == e.order.stake;
      assert Applied(s, c.symbol, killswitch, e).pending[c.symbol] == e.order;
    }
    AppliedCoveredIff(cfg, s, c.symbol, killswitch, e);
  }

  lemma StakeWithinFreeBalance(view: Risk.SignalView, a: Risk.AccountState, config: Risk.RiskConfig, now: Time,
                               kill: bool, dup: bool)
    requires a.freeBalance >= 0.0
    requires Risk.Evaluate(view, a, config, now, kill, dup, NO_EXPECTANCY).Success?
    ensures var d := Risk.Evaluate(view, a, config, now, kill, dup, NO_EXPECTANCY).value;
            d.approved ==> d.sizing.Some? && d.sizing.value.positionSize <= a.freeBalance
  {
    RiskFacts.EvaluateApprovedIff(view, a, config, now, kill, dup, NO_EXPECTANCY);
  }

  /** Without fees the reservation is exact, so every approved entry is eventually filled. */
  lemma {:induction false} FreeReplayStaysCovered(cfg: Config, signals: SignalIndex, candles: seq<Candle>)
    requires ValidConfig(cfg) && AllValid(candles) && CheckOrdered(candles).None?
    requires cfg.feeRate == 0.0 && ScalesNonNegative(cfg.risk, signals)
    requires Run(cfg, signals, candles).Success?
    ensures Covered(cfg, Run(cfg, signals, candles).value) && Dropped(cfg, signals, candles) == 0
  {
    hide Step, Solvent, NoneOwed, Coupled, CheckOrdered, ScalesNonNegative;
    if candles == [] {
      assert ReservedCash(cfg, Init(cfg)) == map[];
    } else {
      var earlier := candles[..|candles| - 1];
      var c := candles[|candles| - 1];
      assert earlier + [c] == candles;
      NextCandleFits(earlier, c);
      FreeReplayStaysCovered(cfg, signals, earlier);
      RunStaysSolvent(cfg, signals, earlier);
      RunStaysCoupled(cfg, signals, earlier);
      var s := Run(cfg, signals, earlier).value;
      FreeStepStaysCovered(cfg, signals, s, earlier, c);
    }
  }

  lemma FreeStepStaysCovered(cfg: Config, signals: SignalIndex, s: State, earlier: seq<Candle>, c: Candle)
    requires ValidConfig(cfg) && ValidCandle(c) && CheckOrdered(earlier + [c]).None?
    requires cfg.feeRate == 0.0
    requires Solvent(cfg, s) && NoneOwed(s) && Coupled(earlier, s) && Covered(cfg, s)
    requires Step(cfg, signals, s, c).Success?
    ensures !Drops(cfg, s, c) && Covered(cfg, Step(cfg, signals, s, c).value)
  {
    SettleKeepsCovered(cfg, s, earlier, c);
    var settled := Settle(cfg, s, c).value;
    FreeEntryFits(cfg, signals, settled, c);
    RecordingKeepsCoverage(cfg, Decided(cfg, signals, settled, c).value, c.closeTime);
  }

  /** With any positive fee, an entry that was allowed the whole free balance is dropped. */
  lemma FullBalanceEntryIsDropped(cfg: Config, s: State, c: Candle, signalTime: Time)
    requires cfg.feeRate > 0.0 && s.cash > 0.0
    requires s.pending == map[c.symbol := BuyOrder(signalTime, s.cash)] && signalTime <= c.openTime
    ensures Drops(cfg, s, c)
  {
    TimesSign(s.cash, cfg.feeRate);
  }
}
