/** The backtest ledger as a function of its operations, and the live strategy's stop it mirrors. */
module LedgerModel {
  import opened Arithmetic
  import opened Common
  import opened Sums
  import Risk

  // Mirrored by hand from the live strategy.
  const STATIC_STOPLOSS_PCT: real := -0.08
  const TRAILING_ACTIVATION_PCT: real := 0.02
  const TRAILING_DISTANCE_PCT: real := 0.015

  /** The fixed parameters of one ledger. */
  datatype Setup = Setup(
    startingEquity: real, feePct: real, slippagePct: real, compounding: bool, ignoreKillswitch: bool)

  datatype SimPosition = SimPosition(
    entryTime: Time,
    entryPrice: real,
    size: real,
    sizeBase: real,
    stopLossPrice: real,
    peakPrice: real,
    actualRisk: Option<real>
  )

  datatype ExitReason = AtrStoploss | TrailingStop | MinimalRoi | LlmSellSignal

  datatype ClosedTrade = ClosedTrade(
    symbol: Symbol,
    entryTime: Time,
    exitTime: Time,
    entryPrice: real,
    exitPrice: real,
    size: real,
    pnl: real,
    pnlPct: real,
    exitReason: ExitReason,
    rMultiple: Option<real>
  )

  datatype Bar = Bar(open: real, high: real, low: real)

  datatype State = State(
    positions: map<Symbol, SimPosition>,
    closedTrades: seq<ClosedTrade>,
    consecutiveLosses: nat,
    lastLossClosedAt: Option<Time>,
    symbolLastClosedAt: map<Symbol, Time>,
    killswitchTripped: bool,
    realizedPnl: real
  )

  const EMPTY := State(map[], [], 0, None, map[], false, 0.0)

  // ---------------------------------------------------------- account view

  function EquityOf(setup: Setup, s: State): real {
    if setup.compounding then setup.startingEquity + s.realizedPnl else setup.startingEquity
  }

  function Sizes(s: State): map<Symbol, real> {
    map k | k in s.positions :: s.positions[k].size
  }

  ghost function Exposure(s: State): real {
    Total(Sizes(s))
  }

  function PnlOn(trades: seq<ClosedTrade>, date: int): real {
    if trades == [] then 0.0 else
      var t := trades[|trades| - 1];
      PnlOn(trades[..|trades| - 1], date) + if Date(t.exitTime) == date then t.pnl else 0.0
  }

  ghost function Account(setup: Setup, s: State, now: Time): Risk.AccountState {
    var equity := EquityOf(setup, s);
    Risk.AccountState(
      equity,
      Max(equity - Exposure(s), 0.0),
      s.positions.Keys,
      Exposure(s),
      if equity > 0.0 then Over(PnlOn(s.closedTrades, Date(now)), equity) else 0.0,
      s.consecutiveLosses,
      s.lastLossClosedAt,
      s.symbolLastClosedAt)
  }

  // --------------------------------------------------------------- closing

  function Pnl(setup: Setup, p: SimPosition, exitPrice: real): real {
    Times(Times(p.sizeBase, exitPrice), 1.0 - setup.feePct - setup.slippagePct) - p.size
  }

  function TradeOf(setup: Setup, symbol: Symbol, p: SimPosition, exitTime: Time, exitPrice: real,
                   reason: ExitReason): ClosedTrade {
    var pnl := Pnl(setup, p, exitPrice);
    ClosedTrade(symbol, p.entryTime, exitTime, p.entryPrice, exitPrice, p.size, pnl,
                if p.size > 0.0 then Over(pnl, p.size) else 0.0, reason,
                if p.actualRisk.Some? && p.actualRisk.value > 0.0 then Some(Over(pnl, p.actualRisk.value)) else None)
  }

  function RecordClose(setup: Setup, s: State, symbol: Symbol, exitTime: Time, exitPrice: real,
                       reason: ExitReason): State
    requires symbol in s.positions
  {
    var trade := TradeOf(setup, symbol, s.positions[symbol], exitTime, exitPrice, reason);
    State(s.positions - {symbol},
          s.closedTrades + [trade],
          if trade.pnl < 0.0 then s.consecutiveLosses + 1 else 0,
          if trade.pnl < 0.0 then Some(exitTime) else s.lastLossClosedAt,
          s.symbolLastClosedAt[symbol := exitTime],
          s.killswitchTripped,
          s.realizedPnl + trade.pnl)
  }

  // ------------------------------------------------------------ static exit

  function Floor(p: SimPosition): real {
    Max(p.stopLossPrice, Times(p.entryPrice, 1.0 + STATIC_STOPLOSS_PCT))
  }

  predicate TrailingActive(p: SimPosition)
    requires p.entryPrice != 0.0
  {
    Over(p.peakPrice - p.entryPrice, p.entryPrice) >= TRAILING_ACTIVATION_PCT
  }

  function TrailingPrice(p: SimPosition): real {
    Times(p.peakPrice, 1.0 - TRAILING_DISTANCE_PCT)
  }

  predicate Trails(p: SimPosition)
    requires p.entryPrice != 0.0
  {
    TrailingActive(p) && TrailingPrice(p) > Floor(p)
  }

  /** The stop in force: the ATR stop or the static floor, replaced by a tighter trail once armed. */
  function EffectiveStop(p: SimPosition): real
    requires p.entryPrice != 0.0
  {
    if Trails(p) then TrailingPrice(p) else Floor(p)
  }

  /** The decaying take-profit table, read from its longest mark down. */
  function RoiThreshold(elapsed: Time): Option<real> {
    if elapsed >= 5760 * MINUTE then Some(0.005)
    else if elapsed >= 2880 * MINUTE then Some(0.01)
    else if elapsed >= 1440 * MINUTE then Some(0.015)
    else if elapsed >= 720 * MINUTE then Some(0.02)
    else if elapsed >= 240 * MINUTE then Some(0.03)
    else if elapsed >= 0 then Some(0.06)
    else None
  }

  function Peaked(p: SimPosition, bar: Bar): SimPosition {
    p.(peakPrice := Max(p.peakPrice, bar.high))
  }

  function StopFill(bar: Bar, stop: real): real {
    if bar.open < stop then Min(bar.open, stop) else stop
  }

  function RoiFill(bar: Bar, price: real): real {
    if bar.open > price then Max(bar.open, price) else price
  }

  /** The exchange-side exits, checked on every candle a position is open. */
  function CheckStaticExit(setup: Setup, s: State, symbol: Symbol, bar: Bar, closeTime: Time): Result<State> {
    if symbol !in s.positions then Success(s) else
    var p := Peaked(s.positions[symbol], bar);
    var peaked := s.(positions := s.positions[symbol := p]);
    if p.entryPrice == 0.0 then Failure(DivisionByZero)
    else if bar.low <= EffectiveStop(p) then
      Success(RecordClose(setup, peaked, symbol, closeTime, StopFill(bar, EffectiveStop(p)),
                          if Trails(p) then TrailingStop else AtrStoploss))
    else
      var threshold := RoiThreshold(closeTime - p.entryTime);
      if threshold.Some? && bar.high >= Times(p.entryPrice, 1.0 + threshold.value) then
        Success(RecordClose(setup, peaked, symbol, closeTime,
                            RoiFill(bar, Times(p.entryPrice, 1.0 + threshold.value)), MinimalRoi))
      else Success(peaked)
  }

  // ----------------------------------------------------------- signal steps

  const NO_EXPECTANCY := Risk.ExpectancyView(0, None)

  ghost function EntryDecision(setup: Setup, s: State, signal: Risk.SignalView, config: Risk.RiskConfig,
                               now: Time): Result<Risk.RiskDecision> {
    Risk.Evaluate(signal, Account(setup, s, now), config, now, s.killswitchTripped && !setup.ignoreKillswitch, false,
                  NO_EXPECTANCY)
  }

  function Opened(setup: Setup, sizing: Risk.SizingResult, now: Time, fillPrice: real): SimPosition {
    var effective := Times(fillPrice, 1.0 + setup.feePct + setup.slippagePct);
    SimPosition(now, fillPrice, sizing.positionSize,
                if effective > 0.0 then Over(sizing.positionSize, effective) else 0.0,
                sizing.stopLossPrice, fillPrice, Some(sizing.actualRisk))
  }

  /** Opens a position if the evaluator approves; a trip is recorded either way. */
  ghost function ApplyEntry(setup: Setup, s: State, signal: Risk.SignalView, config: Risk.RiskConfig, now: Time,
                            fillPrice: real): Result<State> {
    var d :- EntryDecision(setup, s, signal, config, now);
    var tripped := if d.autoTripKillswitch
                   then s.(killswitchTripped := true,
                           consecutiveLosses := if setup.ignoreKillswitch then 0 else s.consecutiveLosses)
                   else s;
    Success(if d.approved && d.sizing.Some?
            then tripped.(positions := s.positions[signal.symbol := Opened(setup, d.sizing.value, now, fillPrice)])
            else tripped)
  }

  ghost function ApplyExit(setup: Setup, s: State, signal: Risk.SignalView, config: Risk.RiskConfig, now: Time,
                           fillPrice: real): State {
    var d := Risk.EvaluateExit(signal, Account(setup, s, now), config, now, false);
    if d.approved then RecordClose(setup, s, signal.symbol, now, fillPrice, LlmSellSignal) else s
  }

  // ------------------------------------------------------------------- runs

  datatype Op =
    | Candle(symbol: Symbol, bar: Bar, closeTime: Time)
    | Enter(signal: Risk.SignalView, now: Time, fillPrice: real)
    | Leave(signal: Risk.SignalView, now: Time, fillPrice: real)

  ghost function Step(setup: Setup, config: Risk.RiskConfig, s: State, op: Op): Result<State> {
    match op
    case Candle(symbol, bar, closeTime) => CheckStaticExit(setup, s, symbol, bar, closeTime)
    case Enter(signal, now, fillPrice) => ApplyEntry(setup, s, signal, config, now, fillPrice)
    case Leave(signal, now, fillPrice) => Success(ApplyExit(setup, s, signal, config, now, fillPrice))
  }

  ghost function Run(setup: Setup, config: Risk.RiskConfig, ops: seq<Op>): Result<State> {
    if ops == [] then Success(EMPTY) else
      var s :- Run(setup, config, ops[..|ops| - 1]);
      Step(setup, config, s, ops[|ops| - 1])
  }

  // ------------------------------------------------------- the live strategy

  /** The entry tag a trade carries; None inside a tag is text that does not parse as a number. */
  datatype EntryTag = NoTag | DistanceTag(distance: Option<real>) | PriceTag(price: Option<real>)

  datatype StopChoice = StaticStop | StopAt(rate: real)

  /** `custom_stoploss` up to the absolute stop rate it hands to the exchange bot. */
  function CustomStoploss(tag: EntryTag, openRate: real, maxRate: real): StopChoice
    requires openRate != 0.0
  {
    match tag
    case NoTag => StaticStop
    case DistanceTag(None) => StaticStop
    case PriceTag(None) => StaticStop
    case DistanceTag(Some(d)) =>
      if 0.0 < d <= 0.08 then StopAt(WithTrail(Times(openRate, 1.0 - d), openRate, maxRate)) else StaticStop
    case PriceTag(Some(price)) => StopAt(WithTrail(price, openRate, maxRate))
  }

  /** The tag an approved entry carries: the distance recovered from the sizing's stop and the signal price. */
  function LiveTag(sizing: Risk.SizingResult, signalPrice: real): EntryTag
    requires signalPrice > 0.0
  {
    DistanceTag(Some(1.0 - Over(sizing.stopLossPrice, signalPrice)))
  }

  /** The rate a choice stands for; the static stop is read as the strategy-wide bound below the entry. */
  function LiveRate(choice: StopChoice, openRate: real): real {
    match choice
    case StaticStop => Times(openRate, 1.0 + STATIC_STOPLOSS_PCT)
    case StopAt(rate) => rate
  }

  function WithTrail(stopRate: real, openRate: real, maxRate: real): real
    requires openRate != 0.0
  {
    if Over(maxRate - openRate, openRate) >= TRAILING_ACTIVATION_PCT
    then Max(stopRate, Times(maxRate, 1.0 - TRAILING_DISTANCE_PCT))
    else stopRate
  }
}
