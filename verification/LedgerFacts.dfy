/** What holds over every sequence of ledger operations. */
module LedgerFacts {
  import opened Arithmetic
  import opened Common
  import opened LedgerModel
  import opened Sums
  import Risk
  import RiskFacts

  // ----------------------------------------------------------------- capital

  function Risks(s: State): map<Symbol, real> {
    map k | k in s.positions :: if s.positions[k].actualRisk.Some? then s.positions[k].actualRisk.value else 0.0
  }

  function Limit(config: Risk.RiskConfig): int {
    if config.maxOpenPositions < 0 then 0 else config.maxOpenPositions
  }

  /** Sizes never go below zero, and the exposure cap admits an empty ledger. */
  predicate CapsExposure(setup: Setup, config: Risk.RiskConfig) {
    config.minConfidenceSizeScale >= 0.0 && Times(config.maxTotalExposurePct, setup.startingEquity) >= 0.0
  }

  /** Confidence only shrinks sizes, and the position cap is not negative. */
  predicate CapsSizes(setup: Setup, config: Risk.RiskConfig) {
    config.minConfidenceSizeScale <= 1.0 && Times(setup.startingEquity, config.maxPositionPct) >= 0.0
  }

  /** Confidence only shrinks sizes, stops lie below the price, and the risk budget is not negative. */
  predicate CapsRisk(setup: Setup, config: Risk.RiskConfig) {
    && config.minConfidenceSizeScale <= 1.0 && config.minStopLossPct > 0.0
    && Times(setup.startingEquity, config.riskPerTradePct) >= 0.0
  }

  /** What each cap says of one position, under what it needs of the configuration. */
  predicate WithinCaps(setup: Setup, config: Risk.RiskConfig, p: SimPosition) {
    && p.actualRisk.Some?
    && (CapsExposure(setup, config) ==> p.size >= 0.0)
    && (CapsSizes(setup, config) ==> p.size <= Times(setup.startingEquity, config.maxPositionPct))
    && (CapsRisk(setup, config) ==> p.actualRisk.value <= Times(setup.startingEquity, config.riskPerTradePct))
  }

  ghost predicate Capped(setup: Setup, config: Risk.RiskConfig, s: State) {
    && (CapsExposure(setup, config) ==> Exposure(s) <= Times(config.maxTotalExposurePct, setup.startingEquity))
    && |s.positions| <= Limit(config)
    && (forall k :: k in s.positions ==> WithinCaps(setup, config, s.positions[k]))
  }

  lemma ClosingKeepsCaps(setup: Setup, config: Risk.RiskConfig, s: State, symbol: Symbol, at: Time, price: real,
                         reason: ExitReason)
    requires Capped(setup, config, s) && symbol in s.positions
    ensures Capped(setup, config, RecordClose(setup, s, symbol, at, price, reason))
  {
    var t := RecordClose(setup, s, symbol, at, price, reason);
    TotalRemove(Sizes(s), symbol);
    assert Sizes(t) == Sizes(s) - {symbol};
    Shrinks(s.positions, symbol);
  }

  lemma CandleKeepsCaps(setup: Setup, config: Risk.RiskConfig, s: State, symbol: Symbol, bar: Bar, at: Time)
    requires Capped(setup, config, s)
    requires CheckStaticExit(setup, s, symbol, bar, at).Success?
    ensures Capped(setup, config, CheckStaticExit(setup, s, symbol, bar, at).value)
  {
    if symbol in s.positions {
      var peaked := s.(positions := s.positions[symbol := Peaked(s.positions[symbol], bar)]);
      assert Sizes(peaked) == Sizes(s) && peaked.positions.Keys == s.positions.Keys;
      SameKeysSameSize(peaked.positions, s.positions);
      var t := CheckStaticExit(setup, s, symbol, bar, at).value;
      if t != peaked {
        var trade := t.closedTrades[|s.closedTrades|];
        ClosingKeepsCaps(setup, config, peaked, symbol, at, trade.exitPrice, trade.exitReason);
      }
    }
  }

  lemma SameKeysSameSize<K, V, W>(a: map<K, V>, b: map<K, W>)
    requires a.Keys == b.Keys
    ensures |a| == |b|
  {
    assert |a| == |a.Keys| && |b| == |b.Keys|;
  }

  /** What an approval says about the position it opens. */
  lemma ApprovedEntry(setup: Setup, config: Risk.RiskConfig, s: State, signal: Risk.SignalView, now: Time, fill: real)
    requires !setup.compounding
    requires EntryDecision(setup, s, signal, config, now).Success?
    requires EntryDecision(setup, s, signal, config, now).value.approved
    ensures var d := EntryDecision(setup, s, signal, config, now).value;
            && d.sizing.Some?
            && signal.symbol !in s.positions
            && |s.positions.Keys + {signal.symbol}| <= config.maxOpenPositions
            && Exposure(s) + d.sizing.value.positionSize <= Times(config.maxTotalExposurePct, setup.startingEquity)
            && WithinCaps(setup, config, Opened(setup, d.sizing.value, now, fill))
            && !(s.killswitchTripped && !setup.ignoreKillswitch)
  {
    var a := Account(setup, s, now);
    var kill := s.killswitchTripped && !setup.ignoreKillswitch;
    RiskFacts.EvaluateApprovedIff(signal, a, config, now, kill, false, NO_EXPECTANCY);
    SizedWithinCaps(setup, config, a, signal);
  }

  lemma SizedWithinCaps(setup: Setup, config: Risk.RiskConfig, a: Risk.AccountState, signal: Risk.SignalView)
    requires a.equity == setup.startingEquity
    requires Risk.ComputeSizing(a.equity, a.freeBalance, signal.price, signal.atr14, signal.confidence, config).Success?
    ensures var r := Risk.ComputeSizing(a.equity, a.freeBalance, signal.price, signal.atr14, signal.confidence, config).value;
            && (CapsExposure(setup, config) ==> r.positionSize >= 0.0)
            && (CapsSizes(setup, config) ==> r.positionSize <= Times(setup.startingEquity, config.maxPositionPct))
            && (CapsRisk(setup, config) ==> r.actualRisk <= Times(setup.startingEquity, config.riskPerTradePct))
  {
    RiskFacts.SizeWithinClamps(a.equity, a.freeBalance, signal.price, signal.atr14, signal.confidence, config);
    if CapsRisk(setup, config) {
      RiskFacts.ShrunkRiskWithinNominalIff(a.equity, a.freeBalance, signal.price, signal.atr14, signal.confidence, config);
    }
  }

  lemma OpeningKeepsCaps(setup: Setup, config: Risk.RiskConfig, s: State, t: State, symbol: Symbol, p: SimPosition)
    requires Capped(setup, config, s) && symbol !in s.positions && WithinCaps(setup, config, p)
    requires Exposure(s) + p.size <= Times(config.maxTotalExposurePct, setup.startingEquity)
    requires |s.positions.Keys + {symbol}| <= config.maxOpenPositions
    requires t.positions == s.positions[symbol := p]
    ensures Capped(setup, config, t)
  {
    hide Times, WithinCaps, Exposure;
    OpenedExposure(s, t, symbol, p);
    assert t.positions.Keys == s.positions.Keys + {symbol};
    assert |t.positions| == |t.positions.Keys|;
  }

  lemma OpenedExposure(s: State, t: State, symbol: Symbol, p: SimPosition)
    requires symbol !in s.positions && t.positions == s.positions[symbol := p]
    ensures Exposure(t) == Exposure(s) + p.size
  {
    TotalInsert(Sizes(s), symbol, p.size);
    assert Sizes(t) == Sizes(s)[symbol := p.size];
  }

  lemma EntryKeepsCaps(setup: Setup, config: Risk.RiskConfig, s: State, signal: Risk.SignalView, now: Time, fill: real)
    requires !setup.compounding && Capped(setup, config, s)
    requires ApplyEntry(setup, s, signal, config, now, fill).Success?
    ensures Capped(setup, config, ApplyEntry(setup, s, signal, config, now, fill).value)
  {
    hide Times, Over, Risk.Evaluate;
    var d := EntryDecision(setup, s, signal, config, now).value;
    var t := ApplyEntry(setup, s, signal, config, now, fill).value;
    if d.approved {
      ApprovedEntry(setup, config, s, signal, now, fill);
      var p := Opened(setup, d.sizing.value, now, fill);
      OpeningKeepsCaps(setup, config, s, t, signal.symbol, p);
    } else {
      assert t.positions == s.positions && Sizes(t) == Sizes(s);
    }
  }

  /** In every reachable state of a non-compounding ledger under one configuration the position count is
      capped; so is the exposure when sizes cannot be negative, each size when confidence only shrinks them,
      and each position's risk when its stop also lies below the price. */
  lemma {:induction false} RunStaysCapped(setup: Setup, config: Risk.RiskConfig, ops: seq<Op>)
    requires !setup.compounding
    requires Run(setup, config, ops).Success?
    ensures Capped(setup, config, Run(setup, config, ops).value)
  {
    if ops == [] {
      assert Sizes(EMPTY) == map[];
    } else {
      var earlier := ops[..|ops| - 1];
      RunStaysCapped(setup, config, earlier);
      var s := Run(setup, config, earlier).value;
      match ops[|ops| - 1]
      case Candle(symbol, bar, at) => CandleKeepsCaps(setup, config, s, symbol, bar, at);
      case Enter(signal, now, fill) => EntryKeepsCaps(setup, config, s, signal, now, fill);
      case Leave(signal, now, fill) =>
        if ApplyExit(setup, s, signal, config, now, fill) != s {
          ClosingKeepsCaps(setup, config, s, signal.symbol, now, fill, LlmSellSignal);
        }
    }
  }

  /** So the money at risk across all open positions never exceeds the per-trade budget times the
      number of positions allowed. */
  lemma OpenRiskIsBounded(setup: Setup, config: Risk.RiskConfig, ops: seq<Op>)
    requires !setup.compounding && CapsRisk(setup, config)
    requires Run(setup, config, ops).Success?
    ensures Total(Risks(Run(setup, config, ops).value))
            <= Times(Limit(config) as real, Times(setup.startingEquity, config.riskPerTradePct))
  {
    RunStaysCapped(setup, config, ops);
    CappedRisk(setup, config, Run(setup, config, ops).value);
  }

  lemma CappedRisk(setup: Setup, config: Risk.RiskConfig, s: State)
    requires Capped(setup, config, s) && CapsRisk(setup, config)
    ensures Total(Risks(s)) <= Times(Limit(config) as real, Times(setup.startingEquity, config.riskPerTradePct))
  {
    var budget := Times(setup.startingEquity, config.riskPerTradePct);
    TotalAtMost(Risks(s), budget);
    assert Risks(s).Keys == s.positions.Keys;
    SameKeysSameSize(Risks(s), s.positions);
    TimesMonotone(|s.positions| as real, Limit(config) as real, budget);
  }

  // ------------------------------------------------------------ bookkeeping

  function PnlTotal(trades: seq<ClosedTrade>): real {
    if trades == [] then 0.0 else PnlTotal(trades[..|trades| - 1]) + trades[|trades| - 1].pnl
  }

  /** The number of losing trades at the end of the list. */
  function LosingTail(trades: seq<ClosedTrade>): nat {
    if trades == [] || trades[|trades| - 1].pnl >= 0.0 then 0 else 1 + LosingTail(trades[..|trades| - 1])
  }

  function LastExit(trades: seq<ClosedTrade>, symbol: Symbol): Option<Time> {
    if trades == [] then None
    else if trades[|trades| - 1].symbol == symbol then Some(trades[|trades| - 1].exitTime)
    else LastExit(trades[..|trades| - 1], symbol)
  }

  ghost predicate Booked(setup: Setup, s: State) {
    && s.realizedPnl == PnlTotal(s.closedTrades)
    && s.consecutiveLosses <= LosingTail(s.closedTrades)
    && (!setup.ignoreKillswitch ==> s.consecutiveLosses == LosingTail(s.closedTrades))
    && (forall k :: k in s.symbolLastClosedAt <==> LastExit(s.closedTrades, k).Some?)
    && (forall k :: k in s.symbolLastClosedAt ==> LastExit(s.closedTrades, k) == Some(s.symbolLastClosedAt[k]))
  }

  lemma ClosingKeepsBooks(setup: Setup, s: State, symbol: Symbol, at: Time, price: real, reason: ExitReason)
    requires Booked(setup, s) && symbol in s.positions
    ensures Booked(setup, RecordClose(setup, s, symbol, at, price, reason))
  {
    var t := RecordClose(setup, s, symbol, at, price, reason);
    assert t.closedTrades[..|t.closedTrades| - 1] == s.closedTrades;
  }

  lemma ClosingKeepsBooksIf(setup: Setup, s: State, symbol: Symbol, at: Time, price: real, reason: ExitReason)
    requires symbol in s.positions
    ensures Booked(setup, s) ==> Booked(setup, RecordClose(setup, s, symbol, at, price, reason))
  {
    if Booked(setup, s) {
      ClosingKeepsBooks(setup, s, symbol, at, price, reason);
    }
  }

  /** A candle leaves the ledger alone, raises one peak, or closes that position. */
  lemma CandleShape(setup: Setup, s: State, symbol: Symbol, bar: Bar, at: Time)
    requires CheckStaticExit(setup, s, symbol, bar, at).Success?
    ensures var t := CheckStaticExit(setup, s, symbol, bar, at).value;
            || t == s
            || (symbol in s.positions
                && var peaked := s.(positions := s.positions[symbol := Peaked(s.positions[symbol], bar)]);
                   || t == peaked
                   || exists price, reason :: t == RecordClose(setup, peaked, symbol, at, price, reason))
  {
    if symbol in s.positions {
      var t := CheckStaticExit(setup, s, symbol, bar, at).value;
      var peaked := s.(positions := s.positions[symbol := Peaked(s.positions[symbol], bar)]);
      if t != peaked {
        var trade := t.closedTrades[|s.closedTrades|];
        assert t == RecordClose(setup, peaked, symbol, at, trade.exitPrice, trade.exitReason);
      }
    }
  }

  lemma PeakKeepsBooks(setup: Setup, s: State, t: State)
    requires Booked(setup, s) && t == s.(positions := t.positions)
    ensures Booked(setup, t)
  {
  }

  lemma CandleKeepsBooks(setup: Setup, s: State, symbol: Symbol, bar: Bar, at: Time)
    requires Booked(setup, s) && CheckStaticExit(setup, s, symbol, bar, at).Success?
    ensures Booked(setup, CheckStaticExit(setup, s, symbol, bar, at).value)
  {
    hide Booked, CheckStaticExit, RecordClose;
    CandleShape(setup, s, symbol, bar, at);
    var t := CheckStaticExit(setup, s, symbol, bar, at).value;
    if t != s {
      var peaked := s.(positions := s.positions[symbol := Peaked(s.positions[symbol], bar)]);
      PeakKeepsBooks(setup, s, peaked);
      if t != peaked {
        var price, reason :| t == RecordClose(setup, peaked, symbol, at, price, reason);
        ClosingKeepsBooks(setup, peaked, symbol, at, price, reason);
      }
    }
  }

  lemma EntryKeepsBooks(setup: Setup, config: Risk.RiskConfig, s: State, signal: Risk.SignalView, now: Time, fill: real)
    requires Booked(setup, s) && ApplyEntry(setup, s, signal, config, now, fill).Success?
    ensures Booked(setup, ApplyEntry(setup, s, signal, config, now, fill).value)
  {
    hide EntryDecision, Opened, PnlTotal, LastExit, LosingTail;
  }

  lemma ExitKeepsBooks(setup: Setup, config: Risk.RiskConfig, s: State, signal: Risk.SignalView, now: Time, fill: real)
    requires Booked(setup, s)
    ensures Booked(setup, ApplyExit(setup, s, signal, config, now, fill))
  {
    hide Booked, RecordClose, Account;
    RiskFacts.ExitApprovedIff(signal, Account(setup, s, now), config, now, false);
    if Risk.EvaluateExit(signal, Account(setup, s, now), config, now, false).approved {
      HeldWhenOpen(setup, s, now);
      ClosingKeepsBooks(setup, s, signal.symbol, now, fill, LlmSellSignal);
    }
  }

  lemma HeldWhenOpen(setup: Setup, s: State, now: Time)
    ensures Account(setup, s, now).openSymbols == s.positions.Keys
  {
  }

  lemma StepKeepsBooks(setup: Setup, config: Risk.RiskConfig, s: State, op: Op)
    requires Booked(setup, s) && Step(setup, config, s, op).Success?
    ensures Booked(setup, Step(setup, config, s, op).value)
  {
    hide Booked, CheckStaticExit, ApplyEntry, ApplyExit;
    match op
    case Candle(symbol, bar, at) => CandleKeepsBooks(setup, s, symbol, bar, at);
    case Enter(signal, now, fill) => EntryKeepsBooks(setup, config, s, signal, now, fill);
    case Leave(signal, now, fill) => ExitKeepsBooks(setup, config, s, signal, now, fill);
  }

  /** The incremental counter equals the trailing run of losing trades whenever the kill switch is
      honoured (and never exceeds it otherwise), realised P&L is the sum over the closed trades, and
      the cooldown clock of a symbol is its latest exit. */
  lemma {:induction false} RunStaysBooked(setup: Setup, config: Risk.RiskConfig, ops: seq<Op>)
    requires Run(setup, config, ops).Success?
    ensures Booked(setup, Run(setup, config, ops).value)
  {
    if ops != [] {
      RunStaysBooked(setup, config, ops[..|ops| - 1]);
      StepKeepsBooks(setup, config, Run(setup, config, ops[..|ops| - 1]).value, ops[|ops| - 1]);
    }
  }

  // ------------------------------------------------------------ kill switch

  /** A candle turns at most its own position into a trade, tripped or not. */
  lemma CandleAfterTrip(setup: Setup, s: State, symbol: Symbol, bar: Bar, at: Time)
    requires CheckStaticExit(setup, s, symbol, bar, at).Success?
    ensures var t := CheckStaticExit(setup, s, symbol, bar, at).value;
            && (s.killswitchTripped ==> t.killswitchTripped)
            && t.positions.Keys <= s.positions.Keys
            && |t.closedTrades| + |t.positions| == |s.closedTrades| + |s.positions|
  {
    hide Times, Over;
    CandleShape(setup, s, symbol, bar, at);
    var t := CheckStaticExit(setup, s, symbol, bar, at).value;
    if t != s {
      var peaked := s.(positions := s.positions[symbol := Peaked(s.positions[symbol], bar)]);
      assert peaked.positions.Keys == s.positions.Keys;
      SameKeysSameSize(peaked.positions, s.positions);
      if t != peaked {
        Shrinks(peaked.positions, symbol);
      }
    }
  }

  lemma StepAfterTrip(setup: Setup, config: Risk.RiskConfig, s: State, op: Op)
    requires s.killswitchTripped && !setup.ignoreKillswitch
    requires Step(setup, config, s, op).Success?
    ensures var t := Step(setup, config, s, op).value;
            && t.killswitchTripped
            && t.positions.Keys <= s.positions.Keys
            && |t.closedTrades| + |t.positions| == |s.closedTrades| + |s.positions|
  {
    match op
    case Candle(symbol, bar, at) =>
      CandleAfterTrip(setup, s, symbol, bar, at);
    case Enter(signal, now, fill) =>
      RiskFacts.KillSwitchDominates(signal, Account(setup, s, now), config, now, true, false, NO_EXPECTANCY);
      RiskFacts.EvaluateApprovedIff(signal, Account(setup, s, now), config, now, true, false, NO_EXPECTANCY);
    case Leave(signal, now, fill) =>
      if ApplyExit(setup, s, signal, config, now, fill) != s {
        Shrinks(s.positions, signal.symbol);
      }
  }

  /** Once tripped and honoured, the switch stays on, no symbol is ever entered again, and closed
      trades plus open positions stay constant: later trades number at most the positions open then. */
  lemma {:induction false} RunAfterTrip(setup: Setup, config: Risk.RiskConfig, ops: seq<Op>, n: nat)
    requires n <= |ops| && !setup.ignoreKillswitch
    requires Run(setup, config, ops).Success?
    ensures Run(setup, config, ops[..n]).Success?
    ensures var s, t := Run(setup, config, ops[..n]).value, Run(setup, config, ops).value;
            s.killswitchTripped ==>
              && t.killswitchTripped
              && t.positions.Keys <= s.positions.Keys
              && |t.closedTrades| + |t.positions| == |s.closedTrades| + |s.positions|
  {
    if n == |ops| {
      assert ops[..n] == ops;
    } else {
      var earlier := ops[..|ops| - 1];
      assert earlier[..n] == ops[..n];
      RunAfterTrip(setup, config, earlier, n);
      var s := Run(setup, config, earlier).value;
      if s.killswitchTripped {
        StepAfterTrip(setup, config, s, ops[|ops| - 1]);
      }
    }
  }

  // ------------------------------------------------------------------ stops

  /** The trail starts at least 0.47% above entry. */
  lemma ArmedTrailAboveEntry(p: SimPosition)
    requires p.entryPrice > 0.0 && TrailingActive(p)
    ensures TrailingPrice(p) >= Times(p.entryPrice, 1.0047)
    ensures Times(p.entryPrice, 1.0047) > p.entryPrice
  {
    OverAtLeast(p.peakPrice - p.entryPrice, p.entryPrice, TRAILING_ACTIVATION_PCT);
    TimesMonotone(Times(p.entryPrice, 1.02), p.peakPrice, 0.985);
    assert Times(Times(p.entryPrice, 1.02), 0.985) == Times(p.entryPrice, 1.0047);
  }

  /** A higher peak never loosens the stop. */
  lemma HigherPeakTightens(p: SimPosition, peak: real)
    requires p.entryPrice > 0.0 && peak >= p.peakPrice
    ensures EffectiveStop(p.(peakPrice := peak)) >= EffectiveStop(p)
  {
    var q := p.(peakPrice := peak);
    TimesMonotone(p.peakPrice, peak, 1.0 - TRAILING_DISTANCE_PCT);
    if TrailingActive(p) {
      OverAtLeast(p.peakPrice - p.entryPrice, p.entryPrice, TRAILING_ACTIVATION_PCT);
      OverAtLeast(peak - p.entryPrice, p.entryPrice, TRAILING_ACTIVATION_PCT);
    }
  }

  /** One operation on a position that is open before and after it: everything but the peak is kept,
      the peak and the stop never fall, and a candle it survives stayed above the stop. */
  lemma StepKeepsStop(setup: Setup, config: Risk.RiskConfig, s: State, op: Op, k: Symbol)
    requires k in s.positions && s.positions[k].entryPrice > 0.0
    requires Step(setup, config, s, op).Success? && k in Step(setup, config, s, op).value.positions
    ensures var p, q := s.positions[k], Step(setup, config, s, op).value.positions[k];
            && q == p.(peakPrice := q.peakPrice) && q.peakPrice >= p.peakPrice
            && EffectiveStop(q) >= EffectiveStop(p)
            && (op.Candle? && op.symbol == k ==> op.bar.low > EffectiveStop(q) && q.peakPrice >= op.bar.high)
  {
    var t := Step(setup, config, s, op).value;
    match op
    case Candle(symbol, bar, at) =>
      HigherPeakTightens(s.positions[k], t.positions[k].peakPrice);
    case Enter(signal, now, fill) =>
      RiskFacts.EvaluateApprovedIff(signal, Account(setup, s, now), config, now,
                                    s.killswitchTripped && !setup.ignoreKillswitch, false, NO_EXPECTANCY);
    case Leave(signal, now, fill) =>
  }

  /** Operation `m` is no candle of `k`, or one that stayed above the stop it left in force. */
  ghost predicate Survived(setup: Setup, config: Risk.RiskConfig, ops: seq<Op>, m: nat, k: Symbol)
    requires m < |ops|
  {
    ops[m].Candle? && ops[m].symbol == k ==>
      var t := Run(setup, config, ops[..m + 1]);
      && t.Success? && k in t.value.positions && t.value.positions[k].entryPrice != 0.0
      && ops[m].bar.low > EffectiveStop(t.value.positions[k])
  }

  lemma LastKeepsStop(setup: Setup, config: Risk.RiskConfig, ops: seq<Op>, k: Symbol)
    requires ops != [] && Run(setup, config, ops).Success?
    requires k in Run(setup, config, ops[..|ops| - 1]).value.positions && k in Run(setup, config, ops).value.positions
    requires Run(setup, config, ops[..|ops| - 1]).value.positions[k].entryPrice > 0.0
    ensures var p := Run(setup, config, ops[..|ops| - 1]).value.positions[k];
            var q := Run(setup, config, ops).value.positions[k];
            q == p.(peakPrice := q.peakPrice) && q.peakPrice >= p.peakPrice && EffectiveStop(q) >= EffectiveStop(p)
    ensures Survived(setup, config, ops, |ops| - 1, k)
  {
    hide Step, EffectiveStop;
    assert ops[..|ops|] == ops;
    StepKeepsStop(setup, config, Run(setup, config, ops[..|ops| - 1]).value, ops[|ops| - 1], k);
  }

  lemma SurvivedBefore(setup: Setup, config: Risk.RiskConfig, ops: seq<Op>, m: nat, k: Symbol)
    requires m + 1 < |ops|
    ensures Survived(setup, config, ops[..|ops| - 1], m, k) == Survived(setup, config, ops, m, k)
  {
    hide Run, EffectiveStop;
    assert ops[..|ops| - 1][..m + 1] == ops[..m + 1];
  }

  /** Over any operations during which a position stays open, its effective stop never loosens, its
      entry, size and ATR stop never change, and each candle it survives stayed above the stop. */
  lemma {:induction false} StopNeverLoosens(setup: Setup, config: Risk.RiskConfig, ops: seq<Op>, n: nat, k: Symbol)
    requires n <= |ops| && Run(setup, config, ops).Success?
    requires forall m :: n <= m <= |ops| ==>
                           Run(setup, config, ops[..m]).Success? && k in Run(setup, config, ops[..m]).value.positions
    requires Run(setup, config, ops[..n]).value.positions[k].entryPrice > 0.0
    ensures k in Run(setup, config, ops).value.positions
    ensures var p := Run(setup, config, ops[..n]).value.positions[k];
            var q := Run(setup, config, ops).value.positions[k];
            q == p.(peakPrice := q.peakPrice) && q.peakPrice >= p.peakPrice && EffectiveStop(q) >= EffectiveStop(p)
    ensures forall m :: n <= m < |ops| ==> Survived(setup, config, ops, m, k)
  {
    hide Step, EffectiveStop, Survived;
    assert ops[..|ops|] == ops;
    if n < |ops| {
      var earlier := ops[..|ops| - 1];
      forall m | n <= m <= |earlier|
        ensures Run(setup, config, earlier[..m]).Success? && k in Run(setup, config, earlier[..m]).value.positions
      {
        assert earlier[..m] == ops[..m];
      }
      assert earlier[..n] == ops[..n];
      StopNeverLoosens(setup, config, earlier, n, k);
      assert ops[..|ops| - 1] == earlier;
      LastKeepsStop(setup, config, ops, k);
      forall m | n <= m < |earlier| ensures Survived(setup, config, ops, m, k) {
        SurvivedBefore(setup, config, ops, m, k);
      }
    }
  }

  /** The live tag recovers the distance the sizing used. */
  lemma TagCarriesDistance(equity: real, free: real, price: real, atr: real, confidence: real,
                           config: Risk.RiskConfig, sizing: Risk.SizingResult)
    requires price > 0.0 && Risk.ComputeSizing(equity, free, price, atr, confidence, config) == Success(sizing)
    ensures sizing.stopLossPrice == Times(price, 1.0 - sizing.stopDistancePct)
    ensures LiveTag(sizing, price) == DistanceTag(Some(sizing.stopDistancePct))
  {
    OverTimes(1.0 - sizing.stopDistancePct, price);
    assert Times(price, 1.0 - sizing.stopDistancePct) == Times(1.0 - sizing.stopDistancePct, price);
  }

  /** The ledger anchors the ATR stop to the signal price, the live strategy to the fill. For a distance the
      strategy accepts the two stops of one entry agree exactly when, once the trail is armed, it is not
      below the ledger's stop, and until then when the fill was at the signal price, or above it with the
      distance at its bound. */
  lemma LedgerMatchesStrategyIff(setup: Setup, equity: real, free: real, price: real, atr: real, confidence: real,
                                 config: Risk.RiskConfig, sizing: Risk.SizingResult, now: Time, fill: real, peak: real)
    requires price > 0.0 && fill > 0.0
    requires Risk.ComputeSizing(equity, free, price, atr, confidence, config) == Success(sizing)
    requires 0.0 < sizing.stopDistancePct <= 0.08
    ensures var p := Opened(setup, sizing, now, fill).(peakPrice := peak);
            CustomStoploss(LiveTag(sizing, price), fill, peak) == StopAt(EffectiveStop(p)) <==>
              if TrailingActive(p) then p.stopLossPrice <= TrailingPrice(p)
              else price == fill || (price < fill && sizing.stopDistancePct == 0.08)
  {
    hide Risk.ComputeSizing;
    TagCarriesDistance(equity, free, price, atr, confidence, config, sizing);
    AcceptedStopsAgreeIff(Opened(setup, sizing, now, fill).(peakPrice := peak), price, sizing.stopDistancePct);
  }

  lemma AcceptedStopsAgreeIff(p: SimPosition, price: real, d: real)
    requires price > 0.0 && p.entryPrice > 0.0 && 0.0 < d <= 0.08 && p.stopLossPrice == Times(price, 1.0 - d)
    ensures CustomStoploss(DistanceTag(Some(d)), p.entryPrice, p.peakPrice) == StopAt(EffectiveStop(p)) <==>
              if TrailingActive(p) then p.stopLossPrice <= TrailingPrice(p)
              else price == p.entryPrice || (price < p.entryPrice && d == 0.08)
  {
    var fill := p.entryPrice;
    TimesRight(fill, 0.92, 1.0 - d);
    TimesMonotone(price, fill, 1.0 - d);
    TimesMonotone(fill, price, 1.0 - d);
    if TrailingActive(p) {
      ArmedTrailAboveEntry(p);
      TimesRight(fill, 1.0 - d, 1.0047);
    }
  }

  /** The live strategy's stop is the ledger's at this peak. */
  predicate StopsAgree(setup: Setup, sizing: Risk.SizingResult, price: real, now: Time, fill: real, peak: real)
    requires price > 0.0 && fill != 0.0
  {
    CustomStoploss(LiveTag(sizing, price), fill, peak)
    == StopAt(EffectiveStop(Opened(setup, sizing, now, fill).(peakPrice := peak)))
  }

  /** Over the life of the position, whatever peaks it sees, the two stops agree exactly when the fill was at the
      signal price, or above it with the distance at its bound. */
  lemma StopsAgreeForLifeIff(setup: Setup, equity: real, free: real, price: real, atr: real, confidence: real,
                             config: Risk.RiskConfig, sizing: Risk.SizingResult, now: Time, fill: real)
    requires price > 0.0 && fill > 0.0
    requires Risk.ComputeSizing(equity, free, price, atr, confidence, config) == Success(sizing)
    requires 0.0 < sizing.stopDistancePct <= 0.08
    ensures (forall peak :: peak >= fill ==> StopsAgree(setup, sizing, price, now, fill, peak)) <==>
              price == fill || (price < fill && sizing.stopDistancePct == 0.08)
  {
    hide Risk.ComputeSizing;
    var d := sizing.stopDistancePct;
    TagCarriesDistance(equity, free, price, atr, confidence, config, sizing);
    OverAtLeast(0.0, fill, 0.0);
    LedgerMatchesStrategyIff(setup, equity, free, price, atr, confidence, config, sizing, now, fill, fill);
    assert StopsAgree(setup, sizing, price, now, fill, fill) <==> price == fill || (price < fill && d == 0.08);
    if price == fill || (price < fill && d == 0.08) {
      forall peak | peak >= fill ensures StopsAgree(setup, sizing, price, now, fill, peak) {
        LedgerMatchesStrategyIff(setup, equity, free, price, atr, confidence, config, sizing, now, fill, peak);
        StopBelowTrail(Opened(setup, sizing, now, fill).(peakPrice := peak), price, d);
      }
    }
  }

  lemma StopBelowTrail(p: SimPosition, price: real, d: real)
    requires 0.0 < price <= p.entryPrice && 0.0 < d <= 0.08 && p.stopLossPrice == Times(price, 1.0 - d)
    ensures TrailingActive(p) ==> p.stopLossPrice <= TrailingPrice(p)
  {
    TimesMonotone(price, p.entryPrice, 1.0 - d);
    TimesRight(p.entryPrice, 1.0 - d, 1.0047);
    if TrailingActive(p) {
      ArmedTrailAboveEntry(p);
    }
  }

  const FIVE_PERCENT: Risk.RiskConfig :=
    Risk.RiskConfig(0.01, 0.1, 0.2, 2, 0.03, 3, 120, 0.5, 0.5, 65, 1.0, 0.01, 0.08, false, 0, 0.0)

  /** Price 100, ATR 5, multiplier 1: a stop distance of 5%. */
  lemma FivePercentStop()
    ensures Risk.StopDistance(100.0, 5.0, FIVE_PERCENT) == 0.05
    ensures Times(100.0, 0.95) == 95.0 && Times(101.0, 0.92) == 92.92 && Times(101.0, 0.95) == 95.95
    ensures Over(0.0, 101.0) == 0.0
  {
    hide Risk.ComputeSizing;
    assert Over(5.0, 100.0) == 0.05;
  }

  /** Signal at 100, stop distance 5%, fill at 101: the ledger stops at 95, the live strategy at 95.95. */
  lemma FillGapMovesTheStop(setup: Setup)
    ensures var sizing := Risk.ComputeSizing(1000.0, 1000.0, 100.0, 5.0, 1.0, FIVE_PERCENT);
            && sizing.Success? && sizing.value.stopDistancePct == 0.05
            && EffectiveStop(Opened(setup, sizing.value, 0, 101.0)) == 95.0
            && CustomStoploss(LiveTag(sizing.value, 100.0), 101.0, 101.0) == StopAt(95.95)
  {
    hide Times, Over, Risk.StopDistance, Risk.PositionSize, Risk.ConfidenceScale;
    FivePercentStop();
    var sizing := Risk.ComputeSizing(1000.0, 1000.0, 100.0, 5.0, 1.0, FIVE_PERCENT).value;
    TagCarriesDistance(1000.0, 1000.0, 100.0, 5.0, 1.0, FIVE_PERCENT, sizing);
  }

  /** For a legacy absolute tag the two agree exactly when the price is not below the static floor or
      the trail is armed: only the ledger applies the floor. */
  lemma LedgerMatchesLegacyTagIff(p: SimPosition)
    requires p.entryPrice > 0.0
    ensures CustomStoploss(PriceTag(Some(p.stopLossPrice)), p.entryPrice, p.peakPrice) == StopAt(EffectiveStop(p))
            <==> p.stopLossPrice >= Times(p.entryPrice, 0.92) || TrailingActive(p)
  {
    if TrailingActive(p) {
      ArmedTrailAboveEntry(p);
      TimesRight(p.entryPrice, 0.92, 1.0047);
    }
  }

  /** A distance outside the accepted range leaves the strategy on its static stop, which never trails.
      The ledger's stop is that rate exactly when its own stop is not above it and the trail is not armed. */
  lemma RejectedDistanceMatchesIff(setup: Setup, equity: real, free: real, price: real, atr: real, confidence: real,
                                   config: Risk.RiskConfig, sizing: Risk.SizingResult, now: Time, fill: real, peak: real)
    requires price > 0.0 && fill > 0.0
    requires Risk.ComputeSizing(equity, free, price, atr, confidence, config) == Success(sizing)
    requires !(0.0 < sizing.stopDistancePct <= 0.08)
    ensures var p := Opened(setup, sizing, now, fill).(peakPrice := peak);
            var live := CustomStoploss(LiveTag(sizing, price), fill, peak);
            && live == StaticStop
            && (LiveRate(live, fill) == EffectiveStop(p) <==>
                  !TrailingActive(p) && Times(price, 1.0 - sizing.stopDistancePct) <= Times(fill, 0.92))
            && (TrailingActive(p) ==> EffectiveStop(p) > fill > LiveRate(live, fill))
  {
    hide Risk.ComputeSizing;
    TagCarriesDistance(equity, free, price, atr, confidence, config, sizing);
    var p := Opened(setup, sizing, now, fill).(peakPrice := peak);
    if TrailingActive(p) {
      ArmedTrailAboveEntry(p);
      TimesRight(fill, 0.92, 1.0);
      assert Times(fill, 1.0) == fill;
    }
  }

  // ------------------------------------------------------------- candle exits

  /** The stop in force is the tightest of the entry's own stop, the bound 8% below the entry and, once the peak is
      2% above the entry, the trail 1.5% below the peak. */
  lemma StopIsTightest(p: SimPosition)
    requires p.entryPrice > 0.0
    ensures var stop, bound, trail := EffectiveStop(p), Times(p.entryPrice, 0.92), Times(p.peakPrice, 0.985);
            var armed := p.peakPrice >= Times(p.entryPrice, 1.02);
            && stop >= p.stopLossPrice && stop >= bound && (armed ==> stop >= trail)
            && (stop == p.stopLossPrice || stop == bound || (armed && stop == trail))
            && (Trails(p) <==> armed && trail > p.stopLossPrice && trail > bound)
  {
    OverAtLeast(p.peakPrice - p.entryPrice, p.entryPrice, 0.02);
    assert Times(p.entryPrice, 1.02) == p.entryPrice + Times(0.02, p.entryPrice);
  }

  const HOUR: int := 3_600_000_000

  /** What the take-profit table asks of a position of this age. */
  predicate Asked(age: Time, t: real) {
    || (t == 0.06 && 0 <= age < 4 * HOUR)
    || (t == 0.03 && 4 * HOUR <= age < 12 * HOUR)
    || (t == 0.02 && 12 * HOUR <= age < 24 * HOUR)
    || (t == 0.015 && 24 * HOUR <= age < 48 * HOUR)
    || (t == 0.01 && 48 * HOUR <= age < 96 * HOUR)
    || (t == 0.005 && 96 * HOUR <= age)
  }

  /** The table asks one target of every age that is not negative, and an older position is never asked more. */
  lemma TargetNeverRises(younger: Time, older: Time)
    requires 0 <= younger <= older
    ensures exists t, u :: Asked(younger, t) && Asked(older, u) && t >= u
    ensures forall t, u :: Asked(younger, t) && Asked(older, u) ==> t >= u
  {
    var t := RoiThreshold(younger);
    var u := RoiThreshold(older);
    assert Asked(younger, t.value) && Asked(older, u.value);
  }

  /** What a candle that closes the position records. */
  ghost predicate ClosedAt(setup: Setup, s: State, t: State, symbol: Symbol, at: Time, price: real, reason: ExitReason)
    requires symbol in s.positions
  {
    && |t.closedTrades| == |s.closedTrades| + 1 && t.closedTrades[..|s.closedTrades|] == s.closedTrades
    && t.positions == s.positions - {symbol}
    && var x, p := t.closedTrades[|s.closedTrades|], s.positions[symbol];
       && x.symbol == symbol && x.entryTime == p.entryTime && x.exitTime == at
       && x.entryPrice == p.entryPrice && x.exitPrice == price && x.size == p.size && x.exitReason == reason
       && x.pnl == Pnl(setup, p, price)
       && (if p.size > 0.0 then Times(x.pnlPct, p.size) == x.pnl else x.pnlPct == 0.0)
       && (x.rMultiple.Some? <==> p.actualRisk.Some? && p.actualRisk.value > 0.0)
       && (x.rMultiple.Some? ==> Times(x.rMultiple.value, p.actualRisk.value) == x.pnl)
  }

  lemma CloseRecords(setup: Setup, s: State, p: SimPosition, symbol: Symbol, at: Time, price: real, reason: ExitReason)
    requires symbol in s.positions && p == s.positions[symbol].(peakPrice := p.peakPrice)
    ensures ClosedAt(setup, s, RecordClose(setup, s.(positions := s.positions[symbol := p]), symbol, at, price, reason),
                     symbol, at, price, reason)
  {
    hide Times, Over;
    if p.size > 0.0 {
      OverTimes(Pnl(setup, p, price), p.size);
    }
    if p.actualRisk.Some? && p.actualRisk.value > 0.0 {
      OverTimes(Pnl(setup, p, price), p.actualRisk.value);
    }
    assert s.positions[symbol := p] - {symbol} == s.positions - {symbol};
  }

  /** A candle that reaches the stop in force closes the position at that stop, or at the open when it opens below;
      otherwise one that reaches the target the table asks closes it there, or at the open when it opens above;
      otherwise only the peak may rise. */
  lemma CandleExitIff(setup: Setup, s: State, symbol: Symbol, bar: Bar, at: Time)
    requires symbol in s.positions && s.positions[symbol].entryPrice > 0.0
    requires CheckStaticExit(setup, s, symbol, bar, at).Success?
    ensures var t := CheckStaticExit(setup, s, symbol, bar, at).value;
            var p := s.positions[symbol];
            var raised := p.(peakPrice := Max(p.peakPrice, bar.high));
            var stop, age := EffectiveStop(raised), at - p.entryTime;
            && (bar.low <= stop ==>
                  ClosedAt(setup, s, t, symbol, at, Min(bar.open, stop), if Trails(raised) then TrailingStop else AtrStoploss))
            && (bar.low > stop ==>
                  forall target :: Asked(age, target) ==>
                    var price := Times(p.entryPrice, 1.0 + target);
                    if bar.high >= price then ClosedAt(setup, s, t, symbol, at, Max(bar.open, price), MinimalRoi)
                    else t == s.(positions := s.positions[symbol := raised]))
            && (bar.low > stop && age < 0 ==> t == s.(positions := s.positions[symbol := raised]))
  {
    hide Times, Over, ClosedAt, EffectiveStop, Trails, RecordClose;
    var p := s.positions[symbol];
    var raised := p.(peakPrice := Max(p.peakPrice, bar.high));
    var stop, age := EffectiveStop(raised), at - p.entryTime;
    CloseRecords(setup, s, raised, symbol, at, StopFill(bar, stop), if Trails(raised) then TrailingStop else AtrStoploss);
    if bar.low > stop {
      forall target | Asked(age, target)
        ensures RoiThreshold(age) == Some(target)
      {
      }
      if age >= 0 {
        var price := Times(p.entryPrice, 1.0 + RoiThreshold(age).value);
        CloseRecords(setup, s, raised, symbol, at, RoiFill(bar, price), MinimalRoi);
      }
    }
  }

  /** A position starts its life at the fill: there its peak is, and from then its age counts. */
  lemma EntryStartsAtFill(setup: Setup, s: State, signal: Risk.SignalView, config: Risk.RiskConfig, now: Time, fill: real)
    requires EntryDecision(setup, s, signal, config, now).Success?
    requires EntryDecision(setup, s, signal, config, now).value.approved
    ensures var d := EntryDecision(setup, s, signal, config, now).value;
            && d.sizing.Some? && ApplyEntry(setup, s, signal, config, now, fill).Success?
            && var t := ApplyEntry(setup, s, signal, config, now, fill).value;
               && t.positions.Keys == s.positions.Keys + {signal.symbol}
               && (forall k :: k in s.positions && k != signal.symbol ==> t.positions[k] == s.positions[k])
               && var p := t.positions[signal.symbol];
                  && p.entryTime == now && p.entryPrice == fill && p.peakPrice == fill
                  && p.size == d.sizing.value.positionSize && p.stopLossPrice == d.sizing.value.stopLossPrice
                  && p.actualRisk == Some(d.sizing.value.actualRisk)
  {
    hide Times, Over;
    RiskFacts.EvaluateApprovedIff(signal, Account(setup, s, now), config, now,
                                  s.killswitchTripped && !setup.ignoreKillswitch, false, NO_EXPECTANCY);
  }

  /** The ledger judges every entry as a first decision without expectancy data, so neither is ever its reason. */
  lemma EntriesHaveNoHistory(setup: Setup, s: State, signal: Risk.SignalView, config: Risk.RiskConfig, now: Time)
    requires EntryDecision(setup, s, signal, config, now).Success?
    ensures var d := EntryDecision(setup, s, signal, config, now).value;
            && d.verdict == Risk.InsufficientData
            && d.rejectionReason !in {Some(Risk.DuplicateDecision), Some(Risk.NegativeExpectancySetup)}
  {
    hide Account, Risk.Decide;
    var a, kill := Account(setup, s, now), s.killswitchTripped && !setup.ignoreKillswitch;
    RiskFacts.ReasonReportedIff(signal, a, config, now, kill, false, NO_EXPECTANCY);
    var ctx := Risk.Context(signal, a, config, now, kill, false, NO_EXPECTANCY).value;
    assert RiskFacts.REASONS_IN_ORDER[1] == Risk.DuplicateDecision && !RiskFacts.Blocks(Risk.DuplicateDecision, ctx);
    assert RiskFacts.REASONS_IN_ORDER[5] == Risk.NegativeExpectancySetup
        && !RiskFacts.Blocks(Risk.NegativeExpectancySetup, ctx);
  }

  // -------------------------------------------------------------- profitability

  /** How an entry sizes the base amount it holds. */
  predicate SizedAtEntry(setup: Setup, p: SimPosition) {
    && p.entryPrice > 0.0 && p.size > 0.0
    && Times(p.entryPrice, 1.0 + setup.feePct + setup.slippagePct) > 0.0
    && p.sizeBase == Over(p.size, Times(p.entryPrice, 1.0 + setup.feePct + setup.slippagePct))
  }

  /** A funded entry at a positive price is sized so, and stays so while it is open. */
  lemma EntrySizesBase(setup: Setup, sizing: Risk.SizingResult, now: Time, fill: real, peak: real)
    requires fill > 0.0 && sizing.positionSize > 0.0 && setup.feePct + setup.slippagePct >= 0.0
    ensures SizedAtEntry(setup, Opened(setup, sizing, now, fill).(peakPrice := peak))
  {
    TimesSign(fill, 1.0 + setup.feePct + setup.slippagePct);
  }

  /** Selling at `price` makes money exactly when it covers the costs on both sides. */
  lemma ProfitableIff(setup: Setup, p: SimPosition, price: real)
    requires SizedAtEntry(setup, p)
    ensures var c := setup.feePct + setup.slippagePct;
            Pnl(setup, p, price) > 0.0 <==> Times(price, 1.0 - c) > Times(p.entryPrice, 1.0 + c)
  {
    var c := setup.feePct + setup.slippagePct;
    var cost := Times(p.entryPrice, 1.0 + c);
    var gain := Times(price, 1.0 - c);
    OverTimes(p.size, cost);
    OverSign(p.size, cost);
    assert Times(Times(p.sizeBase, price), 1.0 - c) == Times(p.sizeBase, gain);
    assert p.size == Times(p.sizeBase, cost);
    TimesRight(p.sizeBase, cost, gain);
    TimesRight(p.sizeBase, gain, cost);
  }

  /** A trailing exit the candle did not gap through. */
  predicate UngappedTrail(s: State, symbol: Symbol, bar: Bar) {
    && symbol in s.positions && s.positions[symbol].entryPrice > 0.0
    && var p := Peaked(s.positions[symbol], bar);
       Trails(p) && bar.low <= EffectiveStop(p) <= bar.open
  }

  /** Such an exit fills at least 0.47% above entry, whatever the costs. */
  lemma UngappedTrailFillsAboveEntry(setup: Setup, s: State, symbol: Symbol, bar: Bar, at: Time)
    requires UngappedTrail(s, symbol, bar)
    ensures CheckStaticExit(setup, s, symbol, bar, at).Success?
    ensures var trades := CheckStaticExit(setup, s, symbol, bar, at).value.closedTrades;
            var t := trades[|s.closedTrades|];
            && |trades| == |s.closedTrades| + 1
            && t.exitReason == TrailingStop && t.entryPrice == s.positions[symbol].entryPrice
            && t.exitPrice >= Times(t.entryPrice, 1.0047) > t.entryPrice
  {
    ArmedTrailAboveEntry(Peaked(s.positions[symbol], bar));
  }

  /** So with costs of at most 0.23% a side a funded entry wins. */
  lemma UngappedTrailWins(setup: Setup, s: State, symbol: Symbol, bar: Bar, at: Time)
    requires UngappedTrail(s, symbol, bar) && SizedAtEntry(setup, s.positions[symbol])
    requires 0.0 <= setup.feePct + setup.slippagePct <= 0.0023
    ensures CheckStaticExit(setup, s, symbol, bar, at).Success?
    ensures var trades := CheckStaticExit(setup, s, symbol, bar, at).value.closedTrades;
            |trades| == |s.closedTrades| + 1 && trades[|s.closedTrades|].pnl > 0.0
  {
    var p := Peaked(s.positions[symbol], bar);
    ArmedTrailAboveEntry(p);
    var stop := EffectiveStop(p);
    ProfitableIff(setup, p, stop);
    CoversCosts(p.entryPrice, stop, setup.feePct + setup.slippagePct);
  }

  lemma CoversCosts(entry: real, exit: real, c: real)
    requires entry > 0.0 && exit >= Times(entry, 1.0047) && 0.0 <= c <= 0.0023
    ensures Times(exit, 1.0 - c) > Times(entry, 1.0 + c)
  {
    TimesMonotone(Times(entry, 1.0047), exit, 1.0 - c);
    TimesRight(1.0047, 0.9977, 1.0 - c);
    var k := Times(1.0047, 1.0 - c);
    assert Times(1.0047, 0.9977) > 1.0023;
    TimesRight(entry, 1.0 + c, k);
    assert Times(Times(entry, 1.0047), 1.0 - c) == Times(entry, k);
  }
}
