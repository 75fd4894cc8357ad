/** At what price a replay fills, in which order it walks the candles, and on what it decides. */
module ReplayFills {
  import opened Arithmetic
  import opened Common
  import opened Replay
  import opened ReplayCausality
  import opened ReplayExits
  import opened ReplayMoney
  import opened ReplayOrders
  import opened Sorting
  import Risk
  import RiskFacts

  // ------------------------------------------------------------ take-profit table

  const HOUR: int := 3_600_000_000

  /** 10% in the first hour, 5% in the second, 2% until the fourth, and from then on whatever does not lose. */
  lemma TargetByAge(age: Time, older: Time)
    ensures age < HOUR ==> RoiTarget(age) == 0.10
    ensures HOUR <= age < 2 * HOUR ==> RoiTarget(age) == 0.05
    ensures 2 * HOUR <= age < 4 * HOUR ==> RoiTarget(age) == 0.02
    ensures 4 * HOUR <= age ==> RoiTarget(age) == 0.0
    ensures age <= older ==> RoiTarget(older) <= RoiTarget(age)
  {
  }

  // ------------------------------------------------------------------- candle order

  /** The walk goes by opening time, pairs of one opening time by name, over the candles it was given. */
  lemma WalksByTimeThenPair(candles: seq<Candle>)
    requires ValidateAndOrder(candles).Success?
    ensures var ordered := ValidateAndOrder(candles).value;
            && multiset(ordered) == multiset(candles)
            && forall i, j :: 0 <= i < j < |ordered| ==>
                 || ordered[i].openTime < ordered[j].openTime
                 || (ordered[i].openTime == ordered[j].openTime && ordered[i].symbol < ordered[j].symbol)
  {
    OpensFirstOrders();
    SortSorted(candles, OpensFirst);
    SortMultiset(candles, OpensFirst);
    var ordered := ValidateAndOrder(candles).value;
    forall i, j | 0 <= i < j < |ordered|
      ensures ordered[i].openTime != ordered[j].openTime || ordered[i].symbol != ordered[j].symbol
    {
      CheckedCandlesNeverTie(ordered, i, j);
    }
  }

  // --------------------------------------------------------------------- slippage

  /** A candle of the symbol opened at that time at the reference, and the price is the reference and the slippage. */
  predicate BoughtAt(cfg: Config, candles: seq<Candle>, symbol: Symbol, at: Time, reference: real, price: real) {
    && price == reference + Times(reference, cfg.slippageRate)
    && exists n :: 0 <= n < |candles| && candles[n].symbol == symbol && candles[n].openTime == at && candles[n].open == reference
  }

  ghost predicate Filled(cfg: Config, candles: seq<Candle>, s: State) {
    && (forall k :: k in s.positions ==>
          BoughtAt(cfg, candles, k, s.positions[k].openedAt, s.positions[k].entryReference, s.positions[k].entryPrice))
    && (forall i :: 0 <= i < |s.trades| ==>
          var t := s.trades[i];
          && BoughtAt(cfg, candles, t.symbol, t.openedAt, t.entryReference, t.entryPrice)
          && t.exitPrice == t.exitReference - Times(t.exitReference, cfg.slippageRate))
  }

  lemma StillBought(cfg: Config, candles: seq<Candle>, c: Candle, symbol: Symbol, at: Time, reference: real, price: real)
    requires BoughtAt(cfg, candles, symbol, at, reference, price)
    ensures BoughtAt(cfg, candles + [c], symbol, at, reference, price)
  {
    var n :| 0 <= n < |candles| && candles[n].symbol == symbol && candles[n].openTime == at && candles[n].open == reference;
    assert (candles + [c])[n] == candles[n];
  }

  lemma FilledGrows(cfg: Config, candles: seq<Candle>, c: Candle, s: State)
    requires Filled(cfg, candles, s)
    ensures Filled(cfg, candles + [c], s)
  {
    hide BoughtAt;
    forall k | k in s.positions
      ensures BoughtAt(cfg, candles + [c], k, s.positions[k].openedAt, s.positions[k].entryReference, s.positions[k].entryPrice)
    {
      StillBought(cfg, candles, c, k, s.positions[k].openedAt, s.positions[k].entryReference, s.positions[k].entryPrice);
    }
    forall i | 0 <= i < |s.trades|
      ensures BoughtAt(cfg, candles + [c], s.trades[i].symbol, s.trades[i].openedAt, s.trades[i].entryReference,
                       s.trades[i].entryPrice)
    {
      var t := s.trades[i];
      StillBought(cfg, candles, c, t.symbol, t.openedAt, t.entryReference, t.entryPrice);
    }
  }

  lemma SlippedFill(cfg: Config, price: real)
    ensures SellFill(cfg, price) == price - Times(price, cfg.slippageRate)
  {
  }

  lemma OpenedSlips(cfg: Config, candles: seq<Candle>, c: Candle, stake: real)
    requires ValidConfig(cfg) && ValidCandle(c)
    ensures var p := Opened(cfg, c, stake);
            BoughtAt(cfg, candles + [c], c.symbol, p.openedAt, p.entryReference, p.entryPrice)
  {
    assert (candles + [c])[|candles|] == c;
  }

  /** A close at a slipped reference keeps every fill accounted for. */
  lemma CloseFills(cfg: Config, candles: seq<Candle>, s: State, k: Symbol, at: Time, reference: real, fill: real,
                   reason: ExitReason)
    requires Filled(cfg, candles, s) && k in s.positions && fill == reference - Times(reference, cfg.slippageRate)
    requires ClosePosition(cfg, s, k, at, reference, fill, reason).Success?
    ensures Filled(cfg, candles, ClosePosition(cfg, s, k, at, reference, fill, reason).value)
  {
    hide BoughtAt, Times, Over;
  }

  lemma ExecuteFills(cfg: Config, candles: seq<Candle>, s: State, c: Candle)
    requires ValidConfig(cfg) && ValidCandle(c) && Filled(cfg, candles, s)
    requires ExecutePending(cfg, s, c).Success?
    ensures Filled(cfg, candles + [c], ExecutePending(cfg, s, c).value)
  {
    hide BoughtAt, Times, Over, ClosePosition;
    FilledGrows(cfg, candles, c, s);
    if Due(s, c) {
      if s.pending[c.symbol].BuyOrder? {
        OpenedSlips(cfg, candles, c, s.pending[c.symbol].stake);
      } else if c.symbol in s.positions {
        SlippedFill(cfg, c.open);
        CloseFills(cfg, candles + [c], TakePending(s, c.symbol), c.symbol, c.openTime, c.open, SellFill(cfg, c.open),
                   SignalExit);
      }
    }
  }

  lemma SafetyFills(cfg: Config, candles: seq<Candle>, s: State, c: Candle)
    requires ValidConfig(cfg) && ValidCandle(c) && Filled(cfg, candles, s) && AllShaped(cfg, s)
    requires ApplySafetyExits(cfg, s, c).Success?
    ensures Filled(cfg, candles, ApplySafetyExits(cfg, s, c).value)
  {
    hide BoughtAt, Times, Over, ClosePosition, Filled, Shaped;
    if c.symbol in s.positions {
      var p := s.positions[c.symbol];
      if c.low <= p.stopPrice {
        SlippedFill(cfg, p.stopPrice);
        CloseFills(cfg, candles, s, c.symbol, c.closeTime, p.stopPrice, SellFill(cfg, p.stopPrice), StopLoss);
      } else {
        ZeroCostIff(cfg, p);
        RateForm(cfg, p);
        var target := RoiTarget(c.closeTime - p.openedAt);
        if NetReturnAtPrice(cfg, p, SellFill(cfg, c.open)) >= target {
          SlippedFill(cfg, c.open);
          CloseFills(cfg, candles, s, c.symbol, c.openTime, c.open, SellFill(cfg, c.open), Roi);
        } else {
          var fill := PriceForNetReturn(cfg, p, target);
          TriggerAboveOpen(cfg, p, c, target);
          SlippedFill(cfg, Trigger(cfg, fill));
          if c.high >= Trigger(cfg, fill) {
            CloseFills(cfg, candles, s, c.symbol, c.closeTime, Trigger(cfg, fill), fill, Roi);
          }
        }
      }
    }
  }

  /** In every replay an entry buys at the open of its candle plus the slippage, and every exit sells at its
      reference less the slippage. */
  lemma {:induction false} RunFillsSlip(cfg: Config, signals: SignalIndex, candles: seq<Candle>)
    requires ValidConfig(cfg) && AllValid(candles) && Run(cfg, signals, candles).Success?
    ensures Filled(cfg, candles, Run(cfg, signals, candles).value)
  {
    hide ExecutePending, ApplySafetyExits, ProcessSignal, BoughtAt, Shaped;
    if candles != [] {
      var earlier, c := candles[..|candles| - 1], candles[|candles| - 1];
      assert earlier + [c] == candles;
      RunFillsSlip(cfg, signals, earlier);
      RunStaysStaked(cfg, signals, earlier);
      var s := Run(cfg, signals, earlier).value;
      ExecuteFills(cfg, earlier, s, c);
      ExecuteKeepsShape(cfg, s, c);
      SafetyFills(cfg, candles, ExecutePending(cfg, s, c).value, c);
      SignalKeepsMoney(cfg, signals, Settle(cfg, s, c).value, c);
    }
  }

  // --------------------------------------------------------------------- decisions

  /** What a decision of the replay shows: it was made at the close of a candle with a signal, and neither a
      duplicate nor an expectancy is ever its reason, nor staleness under an age limit that is not negative. */
  predicate Reasoned(cfg: Config, signals: SignalIndex, candles: seq<Candle>, d: Decision) {
    && (exists n :: 0 <= n < |candles| && candles[n].symbol == d.symbol && candles[n].closeTime == d.candleCloseTime)
    && (d.symbol, d.candleCloseTime) in signals
    && d.action == signals[(d.symbol, d.candleCloseTime)].action
    && d.confidence == signals[(d.symbol, d.candleCloseTime)].confidence
    && (d.approved <==> d.rejectionReason == None)
    && (d.approved ==> d.action != Risk.HOLD && d.pendingSide == Some(if d.action == Risk.SELL then SellSide else BuySide))
    && (d.action == Risk.HOLD ==> d.rejectionReason in {Some(Risk.KillswitchActive), Some(Risk.SignalWasHold)})
    && d.rejectionReason !in {Some(Risk.DuplicateDecision), Some(Risk.NegativeExpectancySetup)}
    && (cfg.risk.signalMaxAgeMinutes >= 0 ==> d.rejectionReason != Some(Risk.StaleSignal))
  }

  lemma EntryReasons(view: Risk.SignalView, a: Risk.AccountState, config: Risk.RiskConfig, now: Time, kill: bool)
    requires view.candleTs == now && Risk.Evaluate(view, a, config, now, kill, false, NO_EXPECTANCY).Success?
    ensures var d := Risk.Evaluate(view, a, config, now, kill, false, NO_EXPECTANCY).value;
            && (d.approved <==> d.rejectionReason == None)
            && (d.approved ==> view.action != Risk.HOLD)
            && (view.action == Risk.HOLD ==> d.rejectionReason in {Some(Risk.KillswitchActive), Some(Risk.SignalWasHold)})
            && d.rejectionReason !in {Some(Risk.DuplicateDecision), Some(Risk.NegativeExpectancySetup)}
            && (config.signalMaxAgeMinutes >= 0 ==> d.rejectionReason != Some(Risk.StaleSignal))
  {
    hide Risk.Decide;
    RiskFacts.ReasonReportedIff(view, a, config, now, kill, false, NO_EXPECTANCY);
    var ctx := Risk.Context(view, a, config, now, kill, false, NO_EXPECTANCY).value;
    var d := Risk.Evaluate(view, a, config, now, kill, false, NO_EXPECTANCY).value;
    var reasons := RiskFacts.REASONS_IN_ORDER;
    assert reasons[0] == Risk.KillswitchActive && reasons[1] == Risk.DuplicateDecision && reasons[2] == Risk.SignalWasHold;
    assert reasons[3] == Risk.StaleSignal && reasons[5] == Risk.NegativeExpectancySetup;
    assert !RiskFacts.Blocks(reasons[1], ctx) && !RiskFacts.Blocks(reasons[5], ctx);
    assert RiskFacts.FirstBlock(ctx, 0) <==> kill;
    assert view.action == Risk.HOLD && !kill ==> RiskFacts.FirstBlock(ctx, 2);
  }

  /** A decision of the candle's signal, if any, is all it adds. */
  lemma DecidedReasoned(cfg: Config, signals: SignalIndex, candles: seq<Candle>, s: State, c: Candle)
    requires c.symbol !in s.pending && Decided(cfg, signals, s, c).Success?
    ensures var t := Decided(cfg, signals, s, c).value;
            || t.decisions == s.decisions
            || (|t.decisions| == |s.decisions| + 1 && t.decisions[..|s.decisions|] == s.decisions
                && Reasoned(cfg, signals, candles + [c], t.decisions[|s.decisions|]))
  {
    hide AccountState, Risk.Evaluate;
    assert (candles + [c])[|candles|] == c;
    if (c.symbol, c.closeTime) in signals {
      var signal := signals[(c.symbol, c.closeTime)];
      if signal.action != Risk.SELL {
        EntryReasons(View(c, signal), AccountState(cfg, s, c.closeTime), cfg.risk, c.closeTime, s.killswitch);
      }
    }
  }

  lemma StillReasoned(cfg: Config, signals: SignalIndex, candles: seq<Candle>, c: Candle, d: Decision)
    requires Reasoned(cfg, signals, candles, d)
    ensures Reasoned(cfg, signals, candles + [c], d)
  {
    var n :| 0 <= n < |candles| && candles[n].symbol == d.symbol && candles[n].closeTime == d.candleCloseTime;
    assert (candles + [c])[n] == candles[n];
  }

  lemma {:induction false} RunReasons(cfg: Config, signals: SignalIndex, candles: seq<Candle>)
    requires ValidConfig(cfg) && AllValid(candles) && CheckOrdered(candles).None?
    requires Run(cfg, signals, candles).Success?
    ensures forall i :: 0 <= i < |Run(cfg, signals, candles).value.decisions| ==>
                          Reasoned(cfg, signals, candles, Run(cfg, signals, candles).value.decisions[i])
  {
    hide Settle, Decided, Reasoned, CheckOrdered;
    if candles != [] {
      var earlier, c := candles[..|candles| - 1], candles[|candles| - 1];
      assert earlier + [c] == candles;
      var settled := LastCandleSettles(cfg, signals, candles);
      RunReasons(cfg, signals, earlier);
      DecidedReasoned(cfg, signals, earlier, settled, c);
      forall i | 0 <= i < |settled.decisions| ensures Reasoned(cfg, signals, candles, settled.decisions[i]) {
        StillReasoned(cfg, signals, earlier, c, settled.decisions[i]);
      }
      DecisionsGrow(settled.decisions, Decided(cfg, signals, settled, c).value.decisions);
    }
  }

  lemma DecisionsGrow(a: seq<Decision>, b: seq<Decision>)
    ensures |b| == |a| + 1 && b[..|a|] == a ==> forall i :: 0 <= i < |a| ==> b[i] == a[i]
  {
  }

  /** An approved entry queues the size that the account, the candle's close and the signal's ATR and confidence
      give. */
  lemma SizedAtClose(cfg: Config, signals: SignalIndex, s: State, c: Candle)
    requires c.symbol !in s.pending && Decided(cfg, signals, s, c).Success?
    requires (c.symbol, c.closeTime) in signals && signals[(c.symbol, c.closeTime)].action != Risk.SELL
    ensures var t, signal := Decided(cfg, signals, s, c).value, signals[(c.symbol, c.closeTime)];
            c.symbol in t.pending ==>
              exists sizing: Risk.SizingResult ::
                && Risk.ComputeSizing(AccountState(cfg, s, c.closeTime).equity, AccountState(cfg, s, c.closeTime).freeBalance,
                                      c.close, signal.atr14, signal.confidence, cfg.risk) == Success(sizing)
                && t.pending[c.symbol] == BuyOrder(c.closeTime, sizing.positionSize)
  {
    hide AccountState, Risk.ComputeSizing, Risk.Decide;
    var signal := signals[(c.symbol, c.closeTime)];
    var d := EntryDecision(cfg, s, c, signal).value;
    if d.approved {
      RiskFacts.EvaluateApprovedIff(View(c, signal), AccountState(cfg, s, c.closeTime), cfg.risk, c.closeTime, s.killswitch,
                                    signal.symbol in s.pending, NO_EXPECTANCY);
    }
  }
}
