/** The historical replay as a function of its inputs: the specification the simulator class meets
    and the whole-run results are about. */
module Replay {
  import opened Arithmetic
  import opened Common
  import opened Sorting
  import opened Sums
  import Risk

  // ---------------------------------------------------------------- inputs

  datatype Candle = Candle(
    symbol: Symbol, openTime: Time, closeTime: Time, open: real, high: real, low: real, close: real)

  /** What the candle schema validates on construction. */
  predicate ValidCandle(c: Candle) {
    && c.openTime < c.closeTime
    && 0.0 < c.low <= c.open <= c.high
    && c.low <= c.close <= c.high
  }

  datatype Signal = Signal(
    symbol: Symbol, candleCloseTime: Time, action: Risk.Action, confidence: real, atr14: real)

  datatype Config = Config(
    startingEquity: real, feeRate: real, slippageRate: real, staticStopLossPct: real, risk: Risk.RiskConfig)

  /** What the replay schema validates on construction. */
  predicate ValidConfig(cfg: Config) {
    && cfg.startingEquity > 0.0
    && 0.0 <= cfg.feeRate < 1.0
    && 0.0 <= cfg.slippageRate < 1.0
    && 0.0 < cfg.staticStopLossPct < 1.0
  }

  // ----------------------------------------------------------------- state

  datatype PendingOrder =
    | BuyOrder(signalTime: Time, stake: real)
    | SellOrder(signalTime: Time)

  datatype OpenPosition = OpenPosition(
    openedAt: Time,
    entryReference: real,
    entryPrice: real,
    amount: real,
    stake: real,
    entryFee: real,
    stopPrice: real
  )

  datatype ExitReason = SignalExit | StopLoss | Roi

  datatype Trade = Trade(
    symbol: Symbol,
    openedAt: Time,
    closedAt: Time,
    entryReference: real,
    entryPrice: real,
    exitReference: real,
    exitPrice: real,
    amount: real,
    stake: real,
    entryFee: real,
    exitFee: real,
    grossPnl: real,
    netPnl: real,
    netPnlPct: real,
    exitReason: ExitReason
  )

  datatype Side = BuySide | SellSide

  datatype Decision = Decision(
    symbol: Symbol,
    candleCloseTime: Time,
    action: Risk.Action,
    confidence: real,
    approved: bool,
    rejectionReason: Option<Risk.RejectionReason>,
    pendingSide: Option<Side>
  )

  datatype EquityPoint = EquityPoint(timestamp: Time, equity: real)

  datatype State = State(
    cash: real,
    positions: map<Symbol, OpenPosition>,
    pending: map<Symbol, PendingOrder>,
    trades: seq<Trade>,
    decisions: seq<Decision>,
    equityCurve: seq<EquityPoint>,
    lastPrices: map<Symbol, real>,
    killswitch: bool
  )

  function Init(cfg: Config): State {
    State(cfg.startingEquity, map[], map[], [], [], [], map[], false)
  }

  // ---------------------------------------------------------------- closing

  function Cost(p: OpenPosition): real {
    p.stake + p.entryFee
  }

  function Proceeds(cfg: Config, p: OpenPosition, exitPrice: real): real {
    Times(p.amount, exitPrice) - Times(Times(p.amount, exitPrice), cfg.feeRate)
  }

  function TradeOf(cfg: Config, symbol: Symbol, p: OpenPosition, closedAt: Time, reference: real, exitPrice: real,
                   reason: ExitReason): Trade
    requires Cost(p) != 0.0
  {
    var net := Proceeds(cfg, p, exitPrice) - p.stake - p.entryFee;
    Trade(symbol, p.openedAt, closedAt, p.entryReference, p.entryPrice, reference, exitPrice, p.amount, p.stake,
          p.entryFee, Times(Times(p.amount, exitPrice), cfg.feeRate), Times(p.amount, exitPrice - p.entryPrice),
          net, Over(net, Cost(p)), reason)
  }

  /** Closing divides by the position's cost, so a zero-cost position raises. */
  function ClosePosition(cfg: Config, s: State, symbol: Symbol, closedAt: Time, reference: real, exitPrice: real,
                         reason: ExitReason): Result<State>
    requires symbol in s.positions
  {
    var p := s.positions[symbol];
    if Cost(p) == 0.0 then Failure(DivisionByZero) else
    Success(s.(cash := s.cash + Proceeds(cfg, p, exitPrice),
               positions := s.positions - {symbol},
               trades := s.trades + [TradeOf(cfg, symbol, p, closedAt, reference, exitPrice, reason)]))
  }

  // ---------------------------------------------------------------- filling

  function SellFill(cfg: Config, price: real): real {
    Times(price, 1.0 - cfg.slippageRate)
  }

  function Opened(cfg: Config, c: Candle, stake: real): OpenPosition
    requires ValidConfig(cfg) && ValidCandle(c)
  {
    var entryPrice := Times(c.open, 1.0 + cfg.slippageRate);
    TimesSign(c.open, 1.0 + cfg.slippageRate);
    OpenPosition(c.openTime, c.open, entryPrice, Over(stake, entryPrice), stake, Times(stake, cfg.feeRate),
                 Times(entryPrice, 1.0 - cfg.staticStopLossPct))
  }

  /** The order waiting for this candle, if the candle opens late enough to fill it. */
  predicate Due(s: State, c: Candle) {
    c.symbol in s.pending && c.openTime >= s.pending[c.symbol].signalTime
  }

  function TakePending(s: State, symbol: Symbol): State {
    s.(pending := s.pending - {symbol})
  }

  /** A due BUY is dropped, not filled, when its cost exceeds the cash or the symbol is held. */
  predicate Affordable(cfg: Config, s: State, c: Candle, stake: real) {
    stake + Times(stake, cfg.feeRate) <= s.cash && c.symbol !in s.positions
  }

  function ExecutePending(cfg: Config, s: State, c: Candle): Result<State>
    requires ValidConfig(cfg) && ValidCandle(c)
  {
    if !Due(s, c) then Success(s) else
    var taken := TakePending(s, c.symbol);
    match s.pending[c.symbol]
    case BuyOrder(_, stake) =>
      if !Affordable(cfg, s, c, stake) then Success(taken) else
      Success(taken.(cash := s.cash - (stake + Times(stake, cfg.feeRate)),
                     positions := s.positions[c.symbol := Opened(cfg, c, stake)]))
    case SellOrder(_) =>
      if c.symbol !in s.positions then Success(taken) else
      ClosePosition(cfg, taken, c.symbol, c.openTime, c.open, SellFill(cfg, c.open), SignalExit)
  }

  // ------------------------------------------------------------ safety exits

  function RoiTarget(age: Time): real {
    if age < 60 * MINUTE then 0.10
    else if age < 120 * MINUTE then 0.05
    else if age < 240 * MINUTE then 0.02
    else 0.0
  }

  function NetReturnAtPrice(cfg: Config, p: OpenPosition, exitPrice: real): real
    requires Cost(p) != 0.0
  {
    Over(Times(Times(p.amount, exitPrice), 1.0 - cfg.feeRate) - Cost(p), Cost(p))
  }

  function PriceForNetReturn(cfg: Config, p: OpenPosition, target: real): real
    requires Times(p.amount, 1.0 - cfg.feeRate) != 0.0
  {
    Over(Times(Cost(p), 1.0 + target), Times(p.amount, 1.0 - cfg.feeRate))
  }

  function Trigger(cfg: Config, targetFill: real): real
    requires ValidConfig(cfg)
  {
    Over(targetFill, 1.0 - cfg.slippageRate)
  }

  /** Stop first, then an ROI exit at the open, then an ROI exit at the trigger price. */
  function ApplySafetyExits(cfg: Config, s: State, c: Candle): Result<State>
    requires ValidConfig(cfg)
  {
    if c.symbol !in s.positions then Success(s) else
    var p := s.positions[c.symbol];
    if c.low <= p.stopPrice then
      ClosePosition(cfg, s, c.symbol, c.closeTime, p.stopPrice, SellFill(cfg, p.stopPrice), StopLoss)
    else if Cost(p) == 0.0 then Failure(DivisionByZero)
    else
      var target := RoiTarget(c.closeTime - p.openedAt);
      var openFill := SellFill(cfg, c.open);
      if NetReturnAtPrice(cfg, p, openFill) >= target then
        ClosePosition(cfg, s, c.symbol, c.openTime, c.open, openFill, Roi)
      else if Times(p.amount, 1.0 - cfg.feeRate) == 0.0 then Failure(DivisionByZero)
      else
        var targetFill := PriceForNetReturn(cfg, p, target);
        var trigger := Trigger(cfg, targetFill);
        if c.high >= trigger then
          ClosePosition(cfg, s, c.symbol, c.closeTime, trigger, targetFill, Roi)
        else Success(s)
  }

  // ----------------------------------------------------------- account view

  function MarkPrice(s: State, symbol: Symbol): real
    requires symbol in s.positions
  {
    if symbol in s.lastPrices then s.lastPrices[symbol] else s.positions[symbol].entryPrice
  }

  function MarkValue(cfg: Config, s: State, symbol: Symbol): real
    requires symbol in s.positions
  {
    Times(Times(s.positions[symbol].amount, MarkPrice(s, symbol)), 1.0 - cfg.feeRate)
  }

  function MarkValues(cfg: Config, s: State): map<Symbol, real> {
    map k | k in s.positions :: MarkValue(cfg, s, k)
  }

  ghost function Equity(cfg: Config, s: State): real {
    s.cash + Total(MarkValues(cfg, s))
  }

  function PendingBuys(s: State): set<Symbol> {
    set k | k in s.pending && s.pending[k].BuyOrder?
  }

  function PendingStakes(s: State): map<Symbol, real> {
    map k | k in PendingBuys(s) :: s.pending[k].stake
  }

  function ReservedCash(cfg: Config, s: State): map<Symbol, real> {
    map k | k in PendingBuys(s) :: Times(s.pending[k].stake, 1.0 + cfg.feeRate)
  }

  function PositionStakes(s: State): map<Symbol, real> {
    map k | k in s.positions :: s.positions[k].stake
  }

  predicate ClosesLater(a: Trade, b: Trade) {
    a.closedAt >= b.closedAt
  }

  /** Trades newest close first; equal close times keep their order. */
  function ClosedDesc(trades: seq<Trade>): seq<Trade> {
    Sort(trades, ClosesLater)
  }

  function LosingRun(desc: seq<Trade>): nat {
    if desc == [] || desc[0].netPnl >= 0.0 then 0 else 1 + LosingRun(desc[1..])
  }

  /** `setdefault` over the trades: the first close seen for each symbol stays. */
  function FirstCloses(desc: seq<Trade>): map<Symbol, Time> {
    if desc == [] then map[] else
      var earlier := FirstCloses(desc[..|desc| - 1]);
      var t := desc[|desc| - 1];
      if t.symbol in earlier then earlier else earlier[t.symbol := t.closedAt]
  }

  function PnlOn(trades: seq<Trade>, date: int): real {
    if trades == [] then 0.0 else
      var t := trades[|trades| - 1];
      PnlOn(trades[..|trades| - 1], date) + (if Date(t.closedAt) == date then t.netPnl else 0.0)
  }

  ghost function AccountState(cfg: Config, s: State, now: Time): Risk.AccountState {
    var equity := Equity(cfg, s);
    var desc := ClosedDesc(s.trades);
    Risk.AccountState(
      equity,
      Max(s.cash - Total(ReservedCash(cfg, s)), 0.0),
      s.positions.Keys + PendingBuys(s),
      Total(PositionStakes(s)) + Total(PendingStakes(s)),
      if equity > 0.0 then Over(PnlOn(s.trades, Date(now)), equity) else 0.0,
      LosingRun(desc),
      if LosingRun(desc) > 0 then Some(desc[0].closedAt) else None,
      FirstCloses(desc))
  }

  // --------------------------------------------------------------- signals

  const NO_EXPECTANCY := Risk.ExpectancyView(0, None)

  function View(c: Candle, signal: Signal): Risk.SignalView {
    Risk.SignalView(signal.symbol, signal.action, signal.confidence, signal.candleCloseTime, c.close, signal.atr14)
  }

  ghost function EntryDecision(cfg: Config, s: State, c: Candle, signal: Signal): Result<Risk.RiskDecision> {
    Risk.Evaluate(View(c, signal), AccountState(cfg, s, c.closeTime), cfg.risk, c.closeTime, s.killswitch,
                  signal.symbol in s.pending, NO_EXPECTANCY)
  }

  ghost function ExitDecision(cfg: Config, s: State, c: Candle, signal: Signal): Risk.ExitDecision {
    Risk.EvaluateExit(View(c, signal), AccountState(cfg, s, c.closeTime), cfg.risk, c.closeTime,
                      signal.symbol in s.pending)
  }

  ghost function ProcessSell(cfg: Config, s: State, c: Candle, signal: Signal): State {
    var d := ExitDecision(cfg, s, c, signal);
    s.(pending := if d.approved then s.pending[signal.symbol := SellOrder(signal.candleCloseTime)] else s.pending,
       decisions := s.decisions + [Decision(signal.symbol, signal.candleCloseTime, signal.action, signal.confidence,
                                            d.approved, d.rejectionReason,
                                            if d.approved then Some(SellSide) else None)])
  }

  ghost function ProcessEntry(cfg: Config, s: State, signal: Signal, d: Risk.RiskDecision): State
    requires d.approved ==> d.sizing.Some?
  {
    s.(killswitch := s.killswitch || d.autoTripKillswitch,
       pending := if d.approved
                  then s.pending[signal.symbol := BuyOrder(signal.candleCloseTime, d.sizing.value.positionSize)]
                  else s.pending,
       decisions := s.decisions + [Decision(signal.symbol, signal.candleCloseTime, signal.action, signal.confidence,
                                            d.approved, d.rejectionReason,
                                            if d.approved then Some(BuySide) else None)])
  }

  ghost function ProcessSignal(cfg: Config, s: State, c: Candle, signal: Signal): Result<State> {
    if signal.symbol != c.symbol || signal.candleCloseTime != c.closeTime then Failure(SignalCandleMismatch)
    else if signal.action == Risk.SELL then Success(ProcessSell(cfg, s, c, signal))
    else
      var d :- EntryDecision(cfg, s, c, signal);
      Success(ProcessEntry(cfg, s, signal, d))
  }

  // ------------------------------------------------------------------- run

  type SignalIndex = map<(Symbol, Time), Signal>

  /** Signals by (symbol, candle close); a repeated key raises. */
  function IndexSignals(signals: seq<Signal>): Result<SignalIndex> {
    if signals == [] then Success(map[]) else
      var earlier :- IndexSignals(signals[..|signals| - 1]);
      var x := signals[|signals| - 1];
      if (x.symbol, x.candleCloseTime) in earlier then Failure(RepeatedSignal)
      else Success(earlier[(x.symbol, x.candleCloseTime) := x])
  }

  predicate OpensFirst(a: Candle, b: Candle) {
    a.openTime < b.openTime || (a.openTime == b.openTime && a.symbol <= b.symbol)
  }

  /** The close of the latest candle of `symbol` in the sequence. */
  function LastClose(candles: seq<Candle>, symbol: Symbol): Option<Time> {
    if candles == [] then None
    else if candles[|candles| - 1].symbol == symbol then Some(candles[|candles| - 1].closeTime)
    else LastClose(candles[..|candles| - 1], symbol)
  }

  /** The two checks made while walking the sorted candles. */
  function CheckOrdered(candles: seq<Candle>): Option<Error> {
    if candles == [] then None else
      var earlier := candles[..|candles| - 1];
      var c := candles[|candles| - 1];
      if CheckOrdered(earlier).Some? then CheckOrdered(earlier)
      else if exists i :: 0 <= i < |earlier| && earlier[i].symbol == c.symbol && earlier[i].openTime == c.openTime
      then Some(RepeatedCandle)
      else if LastClose(earlier, c.symbol).Some? && c.openTime < LastClose(earlier, c.symbol).value
      then Some(OverlappingCandles)
      else None
  }

  function ValidateAndOrder(candles: seq<Candle>): Result<seq<Candle>> {
    if candles == [] then Failure(NoCandles) else
      var ordered := Sort(candles, OpensFirst);
      if CheckOrdered(ordered).Some? then Failure(CheckOrdered(ordered).value) else Success(ordered)
  }

  ghost function Settle(cfg: Config, s: State, c: Candle): Result<State>
    requires ValidConfig(cfg) && ValidCandle(c)
  {
    var filled :- ExecutePending(cfg, s, c);
    var safe :- ApplySafetyExits(cfg, filled, c);
    Success(safe.(lastPrices := safe.lastPrices[c.symbol := c.close]))
  }

  ghost function Decided(cfg: Config, signals: SignalIndex, s: State, c: Candle): Result<State> {
    if (c.symbol, c.closeTime) in signals
    then ProcessSignal(cfg, s, c, signals[(c.symbol, c.closeTime)])
    else Success(s)
  }

  ghost function Recorded(cfg: Config, s: State, timestamp: Time): State {
    s.(equityCurve := s.equityCurve + [EquityPoint(timestamp, Equity(cfg, s))])
  }

  /** One candle of the loop in `run`. */
  ghost function Step(cfg: Config, signals: SignalIndex, s: State, c: Candle): Result<State>
    requires ValidConfig(cfg) && ValidCandle(c)
  {
    var settled :- Settle(cfg, s, c);
    var decided :- Decided(cfg, signals, settled, c);
    Success(Recorded(cfg, decided, c.closeTime))
  }

  predicate AllValid(candles: seq<Candle>) {
    forall i :: 0 <= i < |candles| ==> ValidCandle(candles[i])
  }

  ghost function Run(cfg: Config, signals: SignalIndex, candles: seq<Candle>): Result<State>
    requires ValidConfig(cfg) && AllValid(candles)
  {
    if candles == [] then Success(Init(cfg)) else
      var s :- Run(cfg, signals, candles[..|candles| - 1]);
      Step(cfg, signals, s, candles[|candles| - 1])
  }
}
