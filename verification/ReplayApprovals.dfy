/** Approvals are spent once: by any moment a symbol has seen no more entries, and no more signal exits, than
    its approvals up to then. */
module ReplayApprovals {
  import opened Arithmetic
  import opened Common
  import opened Replay
  import opened ReplayCausality
  import opened ReplayMoney
  import opened ReplayOrders

  // ---------------------------------------------------------------- counting

  /** Approved decisions for one side of a symbol, made on candles closed by `at`. */
  function Approvals(decisions: seq<Decision>, symbol: Symbol, side: Side, at: Time): nat {
    if decisions == [] then 0 else
      var d := decisions[|decisions| - 1];
      Approvals(decisions[..|decisions| - 1], symbol, side, at)
      + if d.approved && d.symbol == symbol && d.pendingSide == Some(side) && d.candleCloseTime <= at then 1 else 0
  }

  function EntriesOf(trades: seq<Trade>, symbol: Symbol, at: Time): nat {
    if trades == [] then 0 else
      var t := trades[|trades| - 1];
      EntriesOf(trades[..|trades| - 1], symbol, at) + if t.symbol == symbol && t.openedAt <= at then 1 else 0
  }

  function SignalExitsOf(trades: seq<Trade>, symbol: Symbol, at: Time): nat {
    if trades == [] then 0 else
      var t := trades[|trades| - 1];
      SignalExitsOf(trades[..|trades| - 1], symbol, at)
      + if t.symbol == symbol && t.exitReason == SignalExit && t.closedAt <= at then 1 else 0
  }

  function Holding(s: State, symbol: Symbol, at: Time): nat {
    if symbol in s.positions && s.positions[symbol].openedAt <= at then 1 else 0
  }

  function Waits(s: State, symbol: Symbol, side: Side, at: Time): nat {
    if symbol in s.pending && OrderSide(s.pending[symbol]) == side && s.pending[symbol].signalTime <= at then 1 else 0
  }

  /** Entries of the symbol by `at`: traded, still held, or signalled and waiting for their fill. */
  function Entries(s: State, symbol: Symbol, at: Time): nat {
    EntriesOf(s.trades, symbol, at) + Holding(s, symbol, at) + Waits(s, symbol, BuySide, at)
  }

  /** Signal exits of the symbol by `at`: done, or signalled and waiting for their fill. */
  function Exits(s: State, symbol: Symbol, at: Time): nat {
    SignalExitsOf(s.trades, symbol, at) + Waits(s, symbol, SellSide, at)
  }

  lemma TradesAppend(trades: seq<Trade>, t: Trade, symbol: Symbol, at: Time)
    ensures EntriesOf(trades + [t], symbol, at)
            == EntriesOf(trades, symbol, at) + if t.symbol == symbol && t.openedAt <= at then 1 else 0
    ensures SignalExitsOf(trades + [t], symbol, at)
            == SignalExitsOf(trades, symbol, at)
               + if t.symbol == symbol && t.exitReason == SignalExit && t.closedAt <= at then 1 else 0
  {
    assert (trades + [t])[..|trades + [t]| - 1] == trades;
  }

  lemma ApprovalsAppend(decisions: seq<Decision>, d: Decision, symbol: Symbol, side: Side, at: Time)
    ensures Approvals(decisions + [d], symbol, side, at)
            == Approvals(decisions, symbol, side, at)
               + if d.approved && d.symbol == symbol && d.pendingSide == Some(side) && d.candleCloseTime <= at then 1 else 0
  {
    assert (decisions + [d])[..|decisions + [d]| - 1] == decisions;
  }

  // ------------------------------------------------------------------- steps

  /** Closing turns a held position into a trade opened at the same moment. */
  lemma CloseSpends(cfg: Config, s: State, k: Symbol, closedAt: Time, reference: real, exitPrice: real,
                    reason: ExitReason, symbol: Symbol, at: Time)
    requires k in s.positions && ClosePosition(cfg, s, k, closedAt, reference, exitPrice, reason).Success?
    ensures var t := ClosePosition(cfg, s, k, closedAt, reference, exitPrice, reason).value;
            && Entries(t, symbol, at) == Entries(s, symbol, at)
            && Exits(t, symbol, at)
               == Exits(s, symbol, at) + if k == symbol && reason == SignalExit && closedAt <= at then 1 else 0
  {
    hide Times, Over;
    TradesAppend(s.trades, TradeOf(cfg, k, s.positions[k], closedAt, reference, exitPrice, reason), symbol, at);
  }

  /** A fill spends the order it takes: no count grows, and an exit is counted as long as its order was. */
  lemma ExecuteSpends(cfg: Config, s: State, earlier: seq<Candle>, c: Candle, symbol: Symbol, at: Time)
    requires ValidConfig(cfg) && ValidCandle(c) && Coupled(earlier, s)
    requires ExecutePending(cfg, s, c).Success?
    ensures var t := ExecutePending(cfg, s, c).value;
            && Entries(t, symbol, at) <= Entries(s, symbol, at)
            && Exits(t, symbol, at) <= Exits(s, symbol, at)
            && (c.openTime <= at ==> Exits(t, symbol, at) == Exits(s, symbol, at))
  {
    hide Times, Over, ClosePosition, EntriesOf, SignalExitsOf;
    if Due(s, c) && s.pending[c.symbol].SellOrder? {
      CloseSpends(cfg, TakePending(s, c.symbol), c.symbol, c.openTime, c.open, SellFill(cfg, c.open), SignalExit,
                  symbol, at);
    }
  }

  lemma SafetySpends(cfg: Config, s: State, c: Candle, symbol: Symbol, at: Time)
    requires ValidConfig(cfg) && ApplySafetyExits(cfg, s, c).Success?
    ensures var t := ApplySafetyExits(cfg, s, c).value;
            Entries(t, symbol, at) == Entries(s, symbol, at) && Exits(t, symbol, at) == Exits(s, symbol, at)
  {
    hide ApplySafetyExits, ClosePosition, Entries, Exits;
    var when, reference, fill, reason := SafetyExitShape(cfg, s, c);
    if ApplySafetyExits(cfg, s, c).value != s {
      CloseSpends(cfg, s, c.symbol, when, reference, fill, reason, symbol, at);
    }
  }

  lemma SettleSpends(cfg: Config, s: State, earlier: seq<Candle>, c: Candle, symbol: Symbol, at: Time)
    requires ValidConfig(cfg) && ValidCandle(c) && Coupled(earlier, s)
    requires Settle(cfg, s, c).Success?
    ensures var t := Settle(cfg, s, c).value;
            && Entries(t, symbol, at) <= Entries(s, symbol, at)
            && Exits(t, symbol, at) <= Exits(s, symbol, at)
            && (c.closeTime <= at ==> Exits(t, symbol, at) == Exits(s, symbol, at))
  {
    hide ExecutePending, ApplySafetyExits, EntriesOf, SignalExitsOf;
    ExecuteSpends(cfg, s, earlier, c, symbol, at);
    SafetySpends(cfg, ExecutePending(cfg, s, c).value, c, symbol, at);
  }

  lemma AppliedEarns(cfg: Config, s: State, c: Candle, killswitch: bool, e: Effect, symbol: Symbol, at: Time)
    requires Lawful(cfg, s, c, e) && c.symbol !in s.pending
    ensures var t := Applied(s, c.symbol, killswitch, e);
            && Entries(t, symbol, at) - Entries(s, symbol, at)
               == Approvals(t.decisions, symbol, BuySide, at) - Approvals(s.decisions, symbol, BuySide, at)
            && Exits(t, symbol, at) - Exits(s, symbol, at)
               == Approvals(t.decisions, symbol, SellSide, at) - Approvals(s.decisions, symbol, SellSide, at)
  {
    hide EntriesOf, SignalExitsOf, Approvals;
    if !e.Nothing? {
      ApprovalsAppend(s.decisions, e.decision, symbol, BuySide, at);
      ApprovalsAppend(s.decisions, e.decision, symbol, SellSide, at);
    }
  }

  /** A decision queues exactly what it approves. */
  lemma DecidedEarns(cfg: Config, signals: SignalIndex, s: State, c: Candle, symbol: Symbol, at: Time)
    requires c.symbol !in s.pending
    requires Decided(cfg, signals, s, c).Success?
    ensures var t := Decided(cfg, signals, s, c).value;
            && Entries(t, symbol, at) - Entries(s, symbol, at)
               == Approvals(t.decisions, symbol, BuySide, at) - Approvals(s.decisions, symbol, BuySide, at)
            && Exits(t, symbol, at) - Exits(s, symbol, at)
               == Approvals(t.decisions, symbol, SellSide, at) - Approvals(s.decisions, symbol, SellSide, at)
  {
    hide Decided, Lawful, Entries, Exits, Approvals;
    var e := DecisionEffect(cfg, signals, s, c);
    AppliedEarns(cfg, s, c, Decided(cfg, signals, s, c).value.killswitch, e, symbol, at);
  }

  lemma StepSpends(cfg: Config, signals: SignalIndex, s: State, earlier: seq<Candle>, c: Candle, symbol: Symbol, at: Time)
    requires ValidConfig(cfg) && ValidCandle(c) && Coupled(earlier, s) && CheckOrdered(earlier + [c]).None?
    requires Step(cfg, signals, s, c).Success?
    ensures var t := Step(cfg, signals, s, c).value;
            && Entries(t, symbol, at) - Entries(s, symbol, at)
               <= Approvals(t.decisions, symbol, BuySide, at) - Approvals(s.decisions, symbol, BuySide, at)
            && Exits(t, symbol, at) - Exits(s, symbol, at)
               <= Approvals(t.decisions, symbol, SellSide, at) - Approvals(s.decisions, symbol, SellSide, at)
            && (c.closeTime <= at ==>
                  Exits(t, symbol, at) - Exits(s, symbol, at)
                  == Approvals(t.decisions, symbol, SellSide, at) - Approvals(s.decisions, symbol, SellSide, at))
  {
    hide Settle, Decided, CheckOrdered, Coupled, EntriesOf, SignalExitsOf, Approvals;
    var settled := Settle(cfg, s, c).value;
    SettleSpends(cfg, s, earlier, c, symbol, at);
    PendingConsumedAtNextCandle(cfg, s, earlier, c);
    DecidedEarns(cfg, signals, settled, c, symbol, at);
  }

  // -------------------------------------------------------------------- runs

  /** In every replay, for every symbol and moment: the entries by then are at most the BUY approvals by then,
      and the signal exits at most the SELL approvals; seen from its end, every SELL approval was spent. */
  lemma {:induction false} ApprovalsAreSpentOnce(cfg: Config, signals: SignalIndex, candles: seq<Candle>, symbol: Symbol,
                                                 at: Time)
    requires ValidConfig(cfg) && AllValid(candles) && CheckOrdered(candles).None?
    requires Run(cfg, signals, candles).Success?
    ensures var s := Run(cfg, signals, candles).value;
            && Entries(s, symbol, at) <= Approvals(s.decisions, symbol, BuySide, at)
            && Exits(s, symbol, at) <= Approvals(s.decisions, symbol, SellSide, at)
            && ((forall i :: 0 <= i < |candles| ==> candles[i].closeTime <= at) ==>
                  Exits(s, symbol, at) == Approvals(s.decisions, symbol, SellSide, at))
  {
    hide Step, CheckOrdered, Entries, Exits, Approvals;
    if candles == [] {
      NothingSpent(cfg, symbol, at);
    } else {
      var earlier := candles[..|candles| - 1];
      var c := candles[|candles| - 1];
      assert earlier + [c] == candles;
      NextCandleFits(earlier, c);
      ApprovalsAreSpentOnce(cfg, signals, earlier, symbol, at);
      RunStaysCoupled(cfg, signals, earlier);
      StepSpends(cfg, signals, Run(cfg, signals, earlier).value, earlier, c, symbol, at);
    }
  }

  lemma NothingSpent(cfg: Config, symbol: Symbol, at: Time)
    ensures Entries(Init(cfg), symbol, at) == 0 && Exits(Init(cfg), symbol, at) == 0
    ensures Approvals([], symbol, BuySide, at) == 0 && Approvals([], symbol, SellSide, at) == 0
  {
  }
}
