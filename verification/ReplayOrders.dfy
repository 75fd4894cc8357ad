/** Orders in a replay: how pending orders and positions stay coupled, how many there can be, what
    becomes of every approved entry, and who authorised every trade. */
module ReplayOrders {
  import opened Arithmetic
  import opened Common
  import opened Replay
  import opened ReplayMoney
  import Risk
  import RiskFacts
  import Sums

  // ---------------------------------------------------------------- coupling

  /** Each pending order was placed at the close of its symbol's latest candle; a SELL waits on a
      held symbol and a BUY on one that is not held. */
  predicate Coupled(candles: seq<Candle>, s: State) {
    forall k :: k in s.pending ==>
      && LastClose(candles, k) == Some(s.pending[k].signalTime)
      && (s.pending[k].SellOrder? <==> k in s.positions)
  }

  /** The validation guarantees that a candle opens no earlier than its symbol last closed. */
  lemma NextCandleFits(earlier: seq<Candle>, c: Candle)
    requires CheckOrdered(earlier + [c]).None?
    ensures CheckOrdered(earlier).None?
    ensures LastClose(earlier, c.symbol).Some? ==> LastClose(earlier, c.symbol).value <= c.openTime
  {
    assert (earlier + [c])[..|earlier + [c]| - 1] == earlier;
  }

  lemma LastCloseAppend(earlier: seq<Candle>, c: Candle, k: Symbol)
    ensures LastClose(earlier + [c], k) == if k == c.symbol then Some(c.closeTime) else LastClose(earlier, k)
  {
    assert (earlier + [c])[..|earlier + [c]| - 1] == earlier;
  }

  /** A pending order is consumed exactly at the next candle of its symbol: that candle always
      finds it due, takes it, and touches no other order and no other position. */
  lemma PendingConsumedAtNextCandle(cfg: Config, s: State, earlier: seq<Candle>, c: Candle)
    requires ValidConfig(cfg) && ValidCandle(c) && Coupled(earlier, s)
    requires CheckOrdered(earlier + [c]).None?
    requires Settle(cfg, s, c).Success?
    ensures c.symbol in s.pending ==> Due(s, c)
    ensures var t := Settle(cfg, s, c).value;
            && t.pending == s.pending - {c.symbol}
            && (forall k :: k != c.symbol ==> (k in t.positions <==> k in s.positions))
            && (forall k :: k != c.symbol && k in s.positions ==> t.positions[k] == s.positions[k])
            && t.decisions == s.decisions && t.killswitch == s.killswitch
  {
    hide ExecutePending, ApplySafetyExits, CheckOrdered;
    NextCandleFits(earlier, c);
    ExecuteTouchesOnly(cfg, s, c);
    SafetyTouchesOnly(cfg, ExecutePending(cfg, s, c).value, c);
  }

  /** What a signal can do to the state: record a rejection, or record an approval and queue its order. */
  datatype Effect = Nothing | Rejected(decision: Decision) | Queued(decision: Decision, order: PendingOrder)

  function Applied(s: State, symbol: Symbol, killswitch: bool, e: Effect): State {
    match e
    case Nothing => s
    case Rejected(d) => s.(decisions := s.decisions + [d], killswitch := killswitch)
    case Queued(d, o) =>
      s.(pending := s.pending[symbol := o], decisions := s.decisions + [d], killswitch := killswitch)
  }

  /** A queued order is a SELL on a held symbol, or a BUY admitted with the switch off and room left. */
  predicate Lawful(cfg: Config, s: State, c: Candle, e: Effect) {
    match e
    case Nothing => true
    case Rejected(d) => !d.approved && d.pendingSide == None
    case Queued(d, o) =>
      && d.approved && d.symbol == c.symbol && d.candleCloseTime == c.closeTime && o.signalTime == c.closeTime
      && d.pendingSide == Some(if o.SellOrder? then SellSide else BuySide)
      && (o.SellOrder? ==> c.symbol in s.positions)
      && (o.BuyOrder? ==>
            && c.symbol !in s.positions && !s.killswitch
            && |Committed(s) + {c.symbol}| <= cfg.risk.maxOpenPositions)
  }

  lemma DecisionEffect(cfg: Config, signals: SignalIndex, s: State, c: Candle) returns (e: Effect)
    requires c.symbol !in s.pending
    requires Decided(cfg, signals, s, c).Success?
    ensures Lawful(cfg, s, c, e)
    ensures var t := Decided(cfg, signals, s, c).value;
            && t == Applied(s, c.symbol, t.killswitch, e)
            && (s.killswitch ==> t.killswitch)
  {
    e := Nothing;
    if (c.symbol, c.closeTime) in signals {
      var signal := signals[(c.symbol, c.closeTime)];
      if signal.action == Risk.SELL {
        e := SellEffect(cfg, s, c, signal);
      } else {
        e := EntryEffect(cfg, s, c, signal);
      }
    }
  }

  lemma SellEffect(cfg: Config, s: State, c: Candle, signal: Signal) returns (e: Effect)
    requires c.symbol !in s.pending && signal.symbol == c.symbol && signal.candleCloseTime == c.closeTime
    ensures Lawful(cfg, s, c, e)
    ensures ProcessSell(cfg, s, c, signal) == Applied(s, c.symbol, s.killswitch, e)
  {
    var d := ExitDecision(cfg, s, c, signal);
    var decision := Decision(c.symbol, c.closeTime, signal.action, signal.confidence, d.approved, d.rejectionReason,
                             if d.approved then Some(SellSide) else None);
    if d.approved {
      assert c.symbol in AccountState(cfg, s, c.closeTime).openSymbols;
      e := Queued(decision, SellOrder(c.closeTime));
    } else {
      e := Rejected(decision);
    }
  }

  lemma EntryEffect(cfg: Config, s: State, c: Candle, signal: Signal) returns (e: Effect)
    requires c.symbol !in s.pending && signal.symbol == c.symbol && signal.candleCloseTime == c.closeTime
    requires EntryDecision(cfg, s, c, signal).Success?
    ensures Lawful(cfg, s, c, e)
    ensures var d := EntryDecision(cfg, s, c, signal).value;
            && (d.approved ==> d.sizing.Some?)
            && ProcessEntry(cfg, s, signal, d)
               == Applied(s, c.symbol, ProcessEntry(cfg, s, signal, d).killswitch, e)
  {
    var d := EntryDecision(cfg, s, c, signal).value;
    var decision := Decision(c.symbol, c.closeTime, signal.action, signal.confidence, d.approved, d.rejectionReason,
                             if d.approved then Some(BuySide) else None);
    if d.approved {
      EntryAdmitted(View(c, signal), AccountState(cfg, s, c.closeTime), cfg.risk, c.closeTime, s.killswitch,
                    signal.symbol in s.pending);
      e := Queued(decision, BuyOrder(c.closeTime, d.sizing.value.positionSize));
    } else {
      e := Rejected(decision);
    }
  }

  lemma EntryAdmitted(view: Risk.SignalView, a: Risk.AccountState, config: Risk.RiskConfig, now: Time, kill: bool,
                      dup: bool)
    requires Risk.Evaluate(view, a, config, now, kill, dup, NO_EXPECTANCY).Success?
    requires Risk.Evaluate(view, a, config, now, kill, dup, NO_EXPECTANCY).value.approved
    ensures !kill && !dup && view.symbol !in a.openSymbols
    ensures |a.openSymbols + {view.symbol}| <= config.maxOpenPositions
    ensures Risk.Evaluate(view, a, config, now, kill, dup, NO_EXPECTANCY).value.sizing.Some?
  {
    RiskFacts.EvaluateApprovedIff(view, a, config, now, kill, dup, NO_EXPECTANCY);
  }

  lemma StepKeepsCoupled(cfg: Config, signals: SignalIndex, s: State, earlier: seq<Candle>, c: Candle)
    requires ValidConfig(cfg) && ValidCandle(c) && Coupled(earlier, s)
    requires CheckOrdered(earlier + [c]).None?
    requires Step(cfg, signals, s, c).Success?
    ensures Coupled(earlier + [c], Step(cfg, signals, s, c).value)
  {
    PendingConsumedAtNextCandle(cfg, s, earlier, c);
    var settled := Settle(cfg, s, c).value;
    var e := DecisionEffect(cfg, signals, settled, c);
    SignalKeepsMoney(cfg, signals, settled, c);
    var t := Step(cfg, signals, s, c).value;
    forall k | k in t.pending
      ensures LastClose(earlier + [c], k) == Some(t.pending[k].signalTime)
      ensures t.pending[k].SellOrder? <==> k in t.positions
    {
      LastCloseAppend(earlier, c, k);
      if k != c.symbol {
        assert k in s.pending && t.pending[k] == s.pending[k];
      }
    }
  }

  /** Between candles, pending orders and positions are always coupled. */
  lemma {:induction false} RunStaysCoupled(cfg: Config, signals: SignalIndex, candles: seq<Candle>)
    requires ValidConfig(cfg) && AllValid(candles) && CheckOrdered(candles).None?
    requires Run(cfg, signals, candles).Success?
    ensures Coupled(candles, Run(cfg, signals, candles).value)
  {
    if candles != [] {
      var earlier := candles[..|candles| - 1];
      var c := candles[|candles| - 1];
      assert earlier + [c] == candles;
      RunStaysCoupled(cfg, signals, earlier);
      StepKeepsCoupled(cfg, signals, Run(cfg, signals, earlier).value, earlier, c);
    }
  }

  /** So no decision is ever made on a symbol with an order in flight: the duplicate flag the
      simulator computes is always false, and no pending order is ever overwritten. */
  lemma NeverDecidesOverAPendingOrder(cfg: Config, signals: SignalIndex, earlier: seq<Candle>, c: Candle)
    requires ValidConfig(cfg) && AllValid(earlier) && ValidCandle(c) && CheckOrdered(earlier + [c]).None?
    requires Run(cfg, signals, earlier).Success?
    requires Settle(cfg, Run(cfg, signals, earlier).value, c).Success?
    ensures c.symbol !in Settle(cfg, Run(cfg, signals, earlier).value, c).value.pending
  {
    NextCandleFits(earlier, c);
    RunStaysCoupled(cfg, signals, earlier);
    PendingConsumedAtNextCandle(cfg, Run(cfg, signals, earlier).value, earlier, c);
  }

  // ------------------------------------------------------------------ limits

  /** Symbols the account is committed to: held, or about to be bought. */
  function Committed(s: State): set<Symbol> {
    s.positions.Keys + PendingBuys(s)
  }

  function Limit(cfg: Config): int {
    if cfg.risk.maxOpenPositions < 0 then 0 else cfg.risk.maxOpenPositions
  }

  lemma SettleCommitsNothingNew(cfg: Config, s: State, earlier: seq<Candle>, c: Candle)
    requires ValidConfig(cfg) && ValidCandle(c) && Coupled(earlier, s)
    requires CheckOrdered(earlier + [c]).None?
    requires Settle(cfg, s, c).Success?
    ensures Committed(Settle(cfg, s, c).value) <= Committed(s)
  {
    PendingConsumedAtNextCandle(cfg, s, earlier, c);
    var t := Settle(cfg, s, c).value;
    var at, reference, fill, reason := SafetyExitShape(cfg, ExecutePending(cfg, s, c).value, c);
    forall k | k in Committed(t) ensures k in Committed(s) {
      if k == c.symbol {
        assert k in t.positions;
      }
    }
  }

  lemma SubsetSmaller<T>(a: set<T>, b: set<T>)
    requires a <= b
    ensures |a| <= |b|
  {
    assert b == a + (b - a);
    assert |b| == |a| + |b - a|;
  }

  lemma AppliedBuys(s: State, symbol: Symbol, killswitch: bool, e: Effect)
    requires symbol !in s.pending
    ensures PendingBuys(Applied(s, symbol, killswitch, e))
            == if e.Queued? && e.order.BuyOrder? then PendingBuys(s) + {symbol} else PendingBuys(s)
  {
  }

  lemma AppliedWithinLimit(cfg: Config, s: State, c: Candle, killswitch: bool, e: Effect)
    requires Lawful(cfg, s, c, e) && c.symbol !in s.pending
    requires |Committed(s)| <= Limit(cfg)
    ensures |Committed(Applied(s, c.symbol, killswitch, e))| <= Limit(cfg)
  {
    AppliedCommits(s, c.symbol, killswitch, e);
  }

  lemma AppliedCommits(s: State, symbol: Symbol, killswitch: bool, e: Effect)
    requires symbol !in s.pending
    ensures Committed(Applied(s, symbol, killswitch, e))
            == if e.Queued? && e.order.BuyOrder? then Committed(s) + {symbol} else Committed(s)
  {
    AppliedBuys(s, symbol, killswitch, e);
    assert Applied(s, symbol, killswitch, e).positions == s.positions;
  }

  lemma StepWithinLimit(cfg: Config, signals: SignalIndex, s: State, earlier: seq<Candle>, c: Candle)
    requires ValidConfig(cfg) && ValidCandle(c) && Coupled(earlier, s)
    requires CheckOrdered(earlier + [c]).None?
    requires Step(cfg, signals, s, c).Success?
    requires |Committed(s)| <= Limit(cfg)
    ensures |Committed(Step(cfg, signals, s, c).value)| <= Limit(cfg)
  {
    SettleCommitsNothingNew(cfg, s, earlier, c);
    PendingConsumedAtNextCandle(cfg, s, earlier, c);
    var settled := Settle(cfg, s, c).value;
    SubsetSmaller(Committed(settled), Committed(s));
    DecidedWithinLimit(cfg, signals, settled, c);
    assert Committed(Step(cfg, signals, s, c).value) == Committed(Decided(cfg, signals, settled, c).value);
  }

  lemma DecidedWithinLimit(cfg: Config, signals: SignalIndex, s: State, c: Candle)
    requires c.symbol !in s.pending && |Committed(s)| <= Limit(cfg)
    requires Decided(cfg, signals, s, c).Success?
    ensures |Committed(Decided(cfg, signals, s, c).value)| <= Limit(cfg)
  {
    var e := DecisionEffect(cfg, signals, s, c);
    AppliedWithinLimit(cfg, s, c, Decided(cfg, signals, s, c).value.killswitch, e);
  }

  /** Held and about-to-be-bought symbols together never exceed the position limit. */
  lemma {:induction false} RunWithinPositionLimit(cfg: Config, signals: SignalIndex, candles: seq<Candle>)
    requires ValidConfig(cfg) && AllValid(candles) && CheckOrdered(candles).None?
    requires Run(cfg, signals, candles).Success?
    ensures |Committed(Run(cfg, signals, candles).value)| <= Limit(cfg)
  {
    if candles == [] {
      assert Committed(Init(cfg)) == {};
    } else {
      var earlier := candles[..|candles| - 1];
      var c := candles[|candles| - 1];
      assert earlier + [c] == candles;
      NextCandleFits(earlier, c);
      RunStaysCoupled(cfg, signals, earlier);
      RunWithinPositionLimit(cfg, signals, earlier);
      StepWithinLimit(cfg, signals, Run(cfg, signals, earlier).value, earlier, c);
    }
  }

  // ---------------------------------------------------------------- bookkeeping

  function ApprovedBuys(decisions: seq<Decision>): nat {
    if decisions == [] then 0 else
      ApprovedBuys(decisions[..|decisions| - 1])
      + if decisions[|decisions| - 1].pendingSide == Some(BuySide) then 1 else 0
  }

  lemma ApprovedBuysAppend(decisions: seq<Decision>, d: Decision)
    ensures ApprovedBuys(decisions + [d]) == ApprovedBuys(decisions) + if d.pendingSide == Some(BuySide) then 1 else 0
  {
    assert (decisions + [d])[..|decisions + [d]| - 1] == decisions;
  }

  /** The candle takes a due BUY whose cost exceeds the cash on hand. */
  predicate Drops(cfg: Config, s: State, c: Candle) {
    Due(s, c) && s.pending[c.symbol].BuyOrder? && !Affordable(cfg, s, c, s.pending[c.symbol].stake)
  }

  ghost function Dropped(cfg: Config, signals: SignalIndex, candles: seq<Candle>): nat
    requires ValidConfig(cfg) && AllValid(candles)
  {
    if candles == [] || Run(cfg, signals, candles[..|candles| - 1]).Failure? then 0 else
      var earlier := candles[..|candles| - 1];
      Dropped(cfg, signals, earlier)
      + if Drops(cfg, Run(cfg, signals, earlier).value, candles[|candles| - 1]) then 1 else 0
  }

  /** Approved entries still traceable in the state. */
  function Traced(s: State): nat {
    |s.trades| + |s.positions| + |PendingBuys(s)|
  }

  lemma ExecuteTraces(cfg: Config, s: State, earlier: seq<Candle>, c: Candle)
    requires ValidConfig(cfg) && ValidCandle(c) && Coupled(earlier, s)
    requires CheckOrdered(earlier + [c]).None?
    requires ExecutePending(cfg, s, c).Success?
    ensures Traced(ExecutePending(cfg, s, c).value) == Traced(s) - if Drops(cfg, s, c) then 1 else 0
  {
    if Due(s, c) {
      if s.pending[c.symbol].BuyOrder? {
        BuyTraces(cfg, s, c);
      } else {
        SellTraces(cfg, s, c);
      }
    }
  }

  /** A waiting entry becomes a position or a drop. */
  lemma BuyTraces(cfg: Config, s: State, c: Candle)
    requires ValidConfig(cfg) && ValidCandle(c) && Due(s, c) && s.pending[c.symbol].BuyOrder?
    ensures Traced(ExecutePending(cfg, s, c).value) == Traced(s) - if Drops(cfg, s, c) then 1 else 0
  {
    hide Times, Over;
    var t := ExecutePending(cfg, s, c).value;
    assert PendingBuys(t) == PendingBuys(s) - {c.symbol};
    assert c.symbol in PendingBuys(s);
    if Affordable(cfg, s, c, s.pending[c.symbol].stake) {
      Grows(s.positions, c.symbol, Opened(cfg, c, s.pending[c.symbol].stake));
    }
  }

  /** A position becomes a trade. */
  lemma SellTraces(cfg: Config, s: State, c: Candle)
    requires ValidConfig(cfg) && ValidCandle(c) && Due(s, c) && s.pending[c.symbol].SellOrder? && c.symbol in s.positions
    requires ExecutePending(cfg, s, c).Success?
    ensures Traced(ExecutePending(cfg, s, c).value) == Traced(s) && !Drops(cfg, s, c)
  {
    hide Times, Over;
    assert PendingBuys(ExecutePending(cfg, s, c).value) == PendingBuys(s);
    Sums.Shrinks(s.positions, c.symbol);
  }

  lemma Grows<K, V>(m: map<K, V>, k: K, v: V)
    requires k !in m
    ensures |m[k := v]| == |m| + 1
  {
    Sums.Shrinks(m[k := v], k);
    assert m[k := v] - {k} == m;
  }

  lemma SettleTraces(cfg: Config, s: State, earlier: seq<Candle>, c: Candle)
    requires ValidConfig(cfg) && ValidCandle(c) && Coupled(earlier, s)
    requires CheckOrdered(earlier + [c]).None?
    requires Settle(cfg, s, c).Success?
    ensures Traced(Settle(cfg, s, c).value) == Traced(s) - if Drops(cfg, s, c) then 1 else 0
  {
    ExecuteTraces(cfg, s, earlier, c);
    var filled := ExecutePending(cfg, s, c).value;
    var at, reference, fill, reason := SafetyExitShape(cfg, filled, c);
    var safe := ApplySafetyExits(cfg, filled, c).value;
    if safe != filled {
      Sums.Shrinks(filled.positions, c.symbol);
    }
    assert PendingBuys(Settle(cfg, s, c).value) == PendingBuys(filled);
  }

  lemma AppliedTraces(cfg: Config, s: State, c: Candle, killswitch: bool, e: Effect)
    requires Lawful(cfg, s, c, e) && c.symbol !in s.pending
    ensures var t := Applied(s, c.symbol, killswitch, e);
            Traced(t) - Traced(s) == ApprovedBuys(t.decisions) - ApprovedBuys(s.decisions)
  {
    AppliedBuys(s, c.symbol, killswitch, e);
    if !e.Nothing? {
      ApprovedBuysAppend(s.decisions, e.decision);
    }
    if e.Queued? && e.order.BuyOrder? {
      assert |PendingBuys(s) + {c.symbol}| == |PendingBuys(s)| + 1;
    }
  }

  lemma DecidedTraces(cfg: Config, signals: SignalIndex, s: State, c: Candle)
    requires c.symbol !in s.pending
    requires Decided(cfg, signals, s, c).Success?
    ensures var t := Decided(cfg, signals, s, c).value;
            Traced(t) - Traced(s) == ApprovedBuys(t.decisions) - ApprovedBuys(s.decisions)
  {
    var e := DecisionEffect(cfg, signals, s, c);
    AppliedTraces(cfg, s, c, Decided(cfg, signals, s, c).value.killswitch, e);
  }

  /** Every approved BUY is a trade, an open position, a pending order, or was dropped for cash. */
  lemma {:induction false} ApprovedBuysAreAccountedFor(cfg: Config, signals: SignalIndex, candles: seq<Candle>)
    requires ValidConfig(cfg) && AllValid(candles) && CheckOrdered(candles).None?
    requires Run(cfg, signals, candles).Success?
    ensures var s := Run(cfg, signals, candles).value;
            ApprovedBuys(s.decisions) == Traced(s) + Dropped(cfg, signals, candles)
  {
    if candles == [] {
      assert PendingBuys(Init(cfg)) == {};
    } else {
      var earlier := candles[..|candles| - 1];
      var c := candles[|candles| - 1];
      assert earlier + [c] == candles;
      NextCandleFits(earlier, c);
      RunStaysCoupled(cfg, signals, earlier);
      ApprovedBuysAreAccountedFor(cfg, signals, earlier);
      var s := Run(cfg, signals, earlier).value;
      SettleTraces(cfg, s, earlier, c);
      PendingConsumedAtNextCandle(cfg, s, earlier, c);
      DecidedTraces(cfg, signals, Settle(cfg, s, c).value, c);
      assert PendingBuys(Run(cfg, signals, candles).value)
          == PendingBuys(Decided(cfg, signals, Settle(cfg, s, c).value, c).value);
    }
  }

  /** A dropped BUY is always dropped for cash, never because the symbol is already held. */
  lemma DropsOnlyForCash(cfg: Config, s: State, earlier: seq<Candle>, c: Candle)
    requires Coupled(earlier, s) && Drops(cfg, s, c)
    ensures var stake := s.pending[c.symbol].stake;
            stake + Arithmetic.Times(stake, cfg.feeRate) > s.cash
  {
  }
}
