/** Causality in a replay: which decision approved every position and trade, that cutting off candles from an
    opening time on keeps the earlier state, that the kill switch latches, and exactly when a replay raises. */
module ReplayCausality {
  import opened Arithmetic
  import opened Common
  import opened Replay
  import opened ReplayMoney
  import opened ReplayOrders
  import opened Sorting
  import opened Sums
  import Risk
  import RiskFacts

  // ----------------------------------------------------------- authorisation

  function OrderSide(o: PendingOrder): Side {
    if o.BuyOrder? then BuySide else SellSide
  }

  predicate Authorises(d: Decision, symbol: Symbol, side: Side, at: Time) {
    d.approved && d.symbol == symbol && d.pendingSide == Some(side) && d.candleCloseTime == at
  }

  /** An approved decision for this side, made on the candle that closed at that moment. */
  ghost predicate Authorised(decisions: seq<Decision>, symbol: Symbol, side: Side, at: Time) {
    exists i :: 0 <= i < |decisions| && Authorises(decisions[i], symbol, side, at)
  }

  /** Candle `n` of the replay opens the symbol at that time, and the decision was made at the close, by then, of
      the symbol's candle just before it. */
  ghost predicate Follows(candles: seq<Candle>, decisions: seq<Decision>, symbol: Symbol, side: Side, at: Time, n: nat)
    requires n < |candles|
  {
    && candles[n].symbol == symbol && candles[n].openTime == at
    && LastClose(candles[..n], symbol).Some? && LastClose(candles[..n], symbol).value <= at
    && Authorised(decisions, symbol, side, LastClose(candles[..n], symbol).value)
  }

  ghost predicate ActsOn(candles: seq<Candle>, decisions: seq<Decision>, symbol: Symbol, side: Side, at: Time) {
    exists n :: 0 <= n < |candles| && Follows(candles, decisions, symbol, side, at, n)
  }

  ghost predicate TradeAuthorised(candles: seq<Candle>, decisions: seq<Decision>, t: Trade) {
    && ActsOn(candles, decisions, t.symbol, BuySide, t.openedAt)
    && (t.exitReason == SignalExit ==> ActsOn(candles, decisions, t.symbol, SellSide, t.closedAt))
  }

  ghost predicate Causal(candles: seq<Candle>, s: State) {
    && (forall k :: k in s.pending ==> Authorised(s.decisions, k, OrderSide(s.pending[k]), s.pending[k].signalTime))
    && (forall k :: k in s.positions ==> ActsOn(candles, s.decisions, k, BuySide, s.positions[k].openedAt))
    && (forall i :: 0 <= i < |s.trades| ==> TradeAuthorised(candles, s.decisions, s.trades[i]))
  }

  lemma StillAuthorised(decisions: seq<Decision>, more: seq<Decision>, symbol: Symbol, side: Side, at: Time)
    requires Authorised(decisions, symbol, side, at)
    ensures Authorised(decisions + more, symbol, side, at)
  {
    var i :| 0 <= i < |decisions| && Authorises(decisions[i], symbol, side, at);
    assert Authorises((decisions + more)[i], symbol, side, at);
  }

  lemma StillActsOn(candles: seq<Candle>, later: seq<Candle>, decisions: seq<Decision>, more: seq<Decision>,
                    symbol: Symbol, side: Side, at: Time)
    requires ActsOn(candles, decisions, symbol, side, at)
    ensures ActsOn(candles + later, decisions + more, symbol, side, at)
  {
    var n :| 0 <= n < |candles| && Follows(candles, decisions, symbol, side, at, n);
    assert (candles + later)[..n] == candles[..n];
    StillAuthorised(decisions, more, symbol, side, LastClose(candles[..n], symbol).value);
    assert Follows(candles + later, decisions + more, symbol, side, at, n);
  }

  /** More candles and more decisions take no authorisation away. */
  lemma CausalGrows(candles: seq<Candle>, later: seq<Candle>, s: State, more: seq<Decision>)
    requires Causal(candles, s)
    ensures Causal(candles + later, s.(decisions := s.decisions + more))
  {
    hide ActsOn, Authorised;
    var decisions := s.decisions + more;
    forall k | k in s.pending ensures Authorised(decisions, k, OrderSide(s.pending[k]), s.pending[k].signalTime) {
      StillAuthorised(s.decisions, more, k, OrderSide(s.pending[k]), s.pending[k].signalTime);
    }
    forall k | k in s.positions ensures ActsOn(candles + later, decisions, k, BuySide, s.positions[k].openedAt) {
      StillActsOn(candles, later, s.decisions, more, k, BuySide, s.positions[k].openedAt);
    }
    forall i | 0 <= i < |s.trades| ensures TradeAuthorised(candles + later, decisions, s.trades[i]) {
      var t := s.trades[i];
      StillActsOn(candles, later, s.decisions, more, t.symbol, BuySide, t.openedAt);
      if t.exitReason == SignalExit {
        StillActsOn(candles, later, s.decisions, more, t.symbol, SellSide, t.closedAt);
      }
    }
  }

  /** The order a candle takes was approved at the close of the symbol's candle before it. */
  lemma DueActsOn(s: State, earlier: seq<Candle>, c: Candle)
    requires Causal(earlier, s) && Coupled(earlier, s) && Due(s, c)
    ensures ActsOn(earlier + [c], s.decisions, c.symbol, OrderSide(s.pending[c.symbol]), c.openTime)
  {
    var all := earlier + [c];
    assert all[..|earlier|] == earlier;
    assert Follows(all, s.decisions, c.symbol, OrderSide(s.pending[c.symbol]), c.openTime, |earlier|);
  }

  lemma ExecuteKeepsCausal(cfg: Config, s: State, earlier: seq<Candle>, c: Candle)
    requires ValidConfig(cfg) && ValidCandle(c) && Causal(earlier, s) && Coupled(earlier, s)
    requires ExecutePending(cfg, s, c).Success?
    ensures Causal(earlier + [c], ExecutePending(cfg, s, c).value)
  {
    hide Times, Over, ActsOn, Authorised;
    CausalGrows(earlier, [c], s, []);
    assert s.decisions + [] == s.decisions;
    if Due(s, c) {
      DueActsOn(s, earlier, c);
    }
  }

  lemma SafetyKeepsCausal(cfg: Config, candles: seq<Candle>, s: State, c: Candle)
    requires ValidConfig(cfg) && Causal(candles, s)
    requires ApplySafetyExits(cfg, s, c).Success?
    ensures Causal(candles, ApplySafetyExits(cfg, s, c).value)
  {
    hide ApplySafetyExits, ActsOn, Authorised;
    var at, reference, fill, reason := SafetyExitShape(cfg, s, c);
  }

  lemma AppliedKeepsCausal(cfg: Config, candles: seq<Candle>, s: State, c: Candle, killswitch: bool, e: Effect)
    requires Causal(candles, s) && Lawful(cfg, s, c, e)
    ensures Causal(candles, Applied(s, c.symbol, killswitch, e))
  {
    hide ActsOn, Authorised;
    if !e.Nothing? {
      CausalGrows(candles, [], s, [e.decision]);
      assert candles + [] == candles;
      if e.Queued? {
        ApprovalAuthorises(cfg, s, c, e);
      }
    }
  }

  lemma ApprovalAuthorises(cfg: Config, s: State, c: Candle, e: Effect)
    requires Lawful(cfg, s, c, e) && e.Queued?
    ensures Authorised(s.decisions + [e.decision], c.symbol, OrderSide(e.order), e.order.signalTime)
  {
    assert Authorises((s.decisions + [e.decision])[|s.decisions|], c.symbol, OrderSide(e.order), e.order.signalTime);
  }

  /** Every position opens, and every signal exit closes, at the open of the candle of its symbol just after
      the one whose decision approved it; nothing trades without such a decision. */
  lemma {:induction false} RunIsCausal(cfg: Config, signals: SignalIndex, candles: seq<Candle>)
    requires ValidConfig(cfg) && AllValid(candles) && CheckOrdered(candles).None?
    requires Run(cfg, signals, candles).Success?
    ensures Causal(candles, Run(cfg, signals, candles).value)
  {
    hide Step, CheckOrdered, ActsOn, Authorised;
    if candles != [] {
      var earlier := candles[..|candles| - 1];
      var c := candles[|candles| - 1];
      assert earlier + [c] == candles;
      NextCandleFits(earlier, c);
      RunIsCausal(cfg, signals, earlier);
      RunStaysCoupled(cfg, signals, earlier);
      StepKeepsCausal(cfg, signals, Run(cfg, signals, earlier).value, earlier, c);
    }
  }

  lemma StepKeepsCausal(cfg: Config, signals: SignalIndex, s: State, earlier: seq<Candle>, c: Candle)
    requires ValidConfig(cfg) && ValidCandle(c) && CheckOrdered(earlier + [c]).None?
    requires Coupled(earlier, s) && Causal(earlier, s)
    requires Step(cfg, signals, s, c).Success?
    ensures Causal(earlier + [c], Step(cfg, signals, s, c).value)
  {
    hide ExecutePending, ApplySafetyExits, ProcessSignal, ActsOn, Authorised, CheckOrdered;
    ExecuteKeepsCausal(cfg, s, earlier, c);
    SafetyKeepsCausal(cfg, earlier + [c], ExecutePending(cfg, s, c).value, c);
    PendingConsumedAtNextCandle(cfg, s, earlier, c);
    DecidedKeepsCausal(cfg, signals, earlier + [c], Settle(cfg, s, c).value, c);
  }

  lemma DecidedKeepsCausal(cfg: Config, signals: SignalIndex, candles: seq<Candle>, s: State, c: Candle)
    requires c.symbol !in s.pending && Causal(candles, s)
    requires Decided(cfg, signals, s, c).Success?
    ensures Causal(candles, Decided(cfg, signals, s, c).value)
  {
    hide ActsOn, Authorised;
    var e := DecisionEffect(cfg, signals, s, c);
    AppliedKeepsCausal(cfg, candles, s, c, Decided(cfg, signals, s, c).value.killswitch, e);
  }

  // ------------------------------------------------------------ kill switch

  /** Once tripped, the switch stays on and no further entry is approved: from then on trades,
      positions, waiting entries and drops only turn into one another. */
  lemma {:induction false} KillSwitchLatches(cfg: Config, signals: SignalIndex, candles: seq<Candle>, n: nat)
    requires ValidConfig(cfg) && AllValid(candles) && CheckOrdered(candles).None?
    requires n <= |candles|
    requires Run(cfg, signals, candles).Success?
    ensures Run(cfg, signals, candles[..n]).Success?
    ensures var s, t := Run(cfg, signals, candles[..n]).value, Run(cfg, signals, candles).value;
            s.killswitch ==> t.killswitch && ApprovedBuys(t.decisions) == ApprovedBuys(s.decisions)
  {
    if n == |candles| {
      assert candles[..n] == candles;
    } else {
      LastCandleLatches(cfg, signals, candles);
      assert candles[..|candles| - 1][..n] == candles[..n];
      KillSwitchLatches(cfg, signals, candles[..|candles| - 1], n);
    }
  }

  lemma LastCandleLatches(cfg: Config, signals: SignalIndex, candles: seq<Candle>)
    requires ValidConfig(cfg) && AllValid(candles) && CheckOrdered(candles).None?
    requires candles != [] && Run(cfg, signals, candles).Success?
    ensures CheckOrdered(candles[..|candles| - 1]).None? && Run(cfg, signals, candles[..|candles| - 1]).Success?
    ensures var s, t := Run(cfg, signals, candles[..|candles| - 1]).value, Run(cfg, signals, candles).value;
            s.killswitch ==> t.killswitch && ApprovedBuys(t.decisions) == ApprovedBuys(s.decisions)
  {
    var settled := LastCandleSettles(cfg, signals, candles);
    LatchedDecision(cfg, signals, settled, candles[|candles| - 1]);
  }

  /** The state a run's last candle decides on: its symbol has no order waiting, and nothing was decided since. */
  lemma LastCandleSettles(cfg: Config, signals: SignalIndex, candles: seq<Candle>) returns (settled: State)
    requires ValidConfig(cfg) && AllValid(candles) && CheckOrdered(candles).None?
    requires candles != [] && Run(cfg, signals, candles).Success?
    ensures CheckOrdered(candles[..|candles| - 1]).None? && Run(cfg, signals, candles[..|candles| - 1]).Success?
    ensures var c, s := candles[|candles| - 1], Run(cfg, signals, candles[..|candles| - 1]).value;
            && Settle(cfg, s, c) == Success(settled) && c.symbol !in settled.pending
            && settled.decisions == s.decisions && settled.killswitch == s.killswitch
            && Decided(cfg, signals, settled, c).Success?
            && Run(cfg, signals, candles).value == Recorded(cfg, Decided(cfg, signals, settled, c).value, c.closeTime)
  {
    hide ExecutePending, ApplySafetyExits, ProcessSignal;
    var earlier := candles[..|candles| - 1];
    var c := candles[|candles| - 1];
    assert earlier + [c] == candles;
    NextCandleFits(earlier, c);
    RunStaysCoupled(cfg, signals, earlier);
    settled := Settle(cfg, Run(cfg, signals, earlier).value, c).value;
    PendingConsumedAtNextCandle(cfg, Run(cfg, signals, earlier).value, earlier, c);
  }

  lemma LatchedDecision(cfg: Config, signals: SignalIndex, s: State, c: Candle)
    requires c.symbol !in s.pending
    requires Decided(cfg, signals, s, c).Success?
    ensures var t := Decided(cfg, signals, s, c).value;
            s.killswitch ==> t.killswitch && ApprovedBuys(t.decisions) == ApprovedBuys(s.decisions)
  {
    var e := DecisionEffect(cfg, signals, s, c);
    if !e.Nothing? {
      ApprovedBuysAppend(s.decisions, e.decision);
    }
  }

  /** After a trip at most as many trades follow as there were positions and waiting entries. */
  lemma TradesAfterTrip(cfg: Config, signals: SignalIndex, candles: seq<Candle>, n: nat)
    requires ValidConfig(cfg) && AllValid(candles) && CheckOrdered(candles).None?
    requires n <= |candles|
    requires Run(cfg, signals, candles).Success?
    ensures Run(cfg, signals, candles[..n]).Success?
    ensures var s, t := Run(cfg, signals, candles[..n]).value, Run(cfg, signals, candles).value;
            s.killswitch ==> |t.trades| - |s.trades| <= |s.positions| + |PendingBuys(s)|
  {
    KillSwitchLatches(cfg, signals, candles, n);
    ApprovedBuysAreAccountedFor(cfg, signals, candles);
    PrefixChecks(candles, n);
    ApprovedBuysAreAccountedFor(cfg, signals, candles[..n]);
    DropsGrow(cfg, signals, candles, n);
  }

  lemma {:induction false} PrefixChecks(candles: seq<Candle>, n: nat)
    requires n <= |candles| && CheckOrdered(candles).None?
    ensures CheckOrdered(candles[..n]).None?
  {
    if n == |candles| {
      assert candles[..n] == candles;
    } else {
      assert candles[..|candles| - 1][..n] == candles[..n];
      PrefixChecks(candles[..|candles| - 1], n);
    }
  }

  lemma {:induction false} DropsGrow(cfg: Config, signals: SignalIndex, candles: seq<Candle>, n: nat)
    requires ValidConfig(cfg) && AllValid(candles) && n <= |candles|
    requires Run(cfg, signals, candles).Success?
    ensures Dropped(cfg, signals, candles[..n]) <= Dropped(cfg, signals, candles)
  {
    if n == |candles| {
      assert candles[..n] == candles;
    } else {
      assert candles[..|candles| - 1][..n] == candles[..n];
      DropsGrow(cfg, signals, candles[..|candles| - 1], n);
    }
  }

  // ---------------------------------------------------------------- prefixes

  /** The two indexes hold the same signals for the candles of the sequence. */
  predicate AgreeOn(candles: seq<Candle>, a: SignalIndex, b: SignalIndex) {
    forall i :: 0 <= i < |candles| ==>
      var key := (candles[i].symbol, candles[i].closeTime);
      (key in a <==> key in b) && (key in a ==> a[key] == b[key])
  }

  lemma {:induction false} SignalsElsewhereDoNotMatter(cfg: Config, a: SignalIndex, b: SignalIndex, candles: seq<Candle>)
    requires ValidConfig(cfg) && AllValid(candles) && AgreeOn(candles, a, b)
    ensures Run(cfg, a, candles) == Run(cfg, b, candles)
  {
    if candles != [] {
      SignalsElsewhereDoNotMatter(cfg, a, b, candles[..|candles| - 1]);
      var c := candles[|candles| - 1];
      assert Run(cfg, a, candles[..|candles| - 1]).Success? ==>
          Step(cfg, a, Run(cfg, a, candles[..|candles| - 1]).value, c)
          == Step(cfg, b, Run(cfg, b, candles[..|candles| - 1]).value, c);
    }
  }

  function Until(candles: seq<Candle>, cutoff: Time): seq<Candle> {
    if candles == [] then [] else
      var earlier := Until(candles[..|candles| - 1], cutoff);
      var c := candles[|candles| - 1];
      if c.openTime < cutoff then earlier + [c] else earlier
  }

  lemma {:induction false} UntilMultiset(candles: seq<Candle>, cutoff: Time, x: Candle)
    ensures multiset(Until(candles, cutoff))[x] == if x.openTime < cutoff then multiset(candles)[x] else 0
    ensures AllValid(candles) ==> AllValid(Until(candles, cutoff))
  {
    if candles != [] {
      var earlier := candles[..|candles| - 1];
      var c := candles[|candles| - 1];
      assert candles == earlier + [c];
      UntilMultiset(earlier, cutoff, x);
    }
  }

  lemma OpensFirstOrders()
    ensures OrdersAll(OpensFirst)
  {
  }

  /** Cutting sorted candles at a time keeps a prefix of them. */
  lemma {:induction false} UntilIsPrefix(sorted: seq<Candle>, cutoff: Time)
    requires Sorted(sorted, OpensFirst)
    ensures |Until(sorted, cutoff)| <= |sorted|
    ensures Until(sorted, cutoff) == sorted[..|Until(sorted, cutoff)|]
    ensures |sorted| > 0 && sorted[|sorted| - 1].openTime < cutoff ==> Until(sorted, cutoff) == sorted
  {
    if sorted != [] {
      var earlier := sorted[..|sorted| - 1];
      var c := sorted[|sorted| - 1];
      UntilIsPrefix(earlier, cutoff);
      if c.openTime < cutoff {
        if earlier != [] {
          assert OpensFirst(sorted[|sorted| - 2], c);
          assert earlier[|earlier| - 1] == sorted[|sorted| - 2];
        }
        assert earlier + [c] == sorted;
      }
    }
  }

  lemma {:induction false} CheckedCandlesNeverTie(candles: seq<Candle>, i: nat, j: nat)
    requires CheckOrdered(candles).None? && i < j < |candles|
    ensures candles[i].symbol != candles[j].symbol || candles[i].openTime != candles[j].openTime
  {
    var earlier := candles[..|candles| - 1];
    if j == |candles| - 1 {
      assert earlier[i] == candles[i];
    } else {
      CheckedCandlesNeverTie(earlier, i, j);
    }
  }

  lemma CheckedNoTies(candles: seq<Candle>)
    requires CheckOrdered(candles).None?
    ensures NoTies(candles, OpensFirst)
  {
    forall i, j | 0 <= i < |candles| && 0 <= j < |candles|
                  && OpensFirst(candles[i], candles[j]) && OpensFirst(candles[j], candles[i])
      ensures candles[i] == candles[j]
    {
      if i < j {
        CheckedCandlesNeverTie(candles, i, j);
      } else if j < i {
        CheckedCandlesNeverTie(candles, j, i);
      }
    }
  }

  lemma UntilSorted(sorted: seq<Candle>, cutoff: Time)
    requires Sorted(sorted, OpensFirst) && CheckOrdered(sorted).None?
    ensures Sorted(Until(sorted, cutoff), OpensFirst) && CheckOrdered(Until(sorted, cutoff)).None?
  {
    UntilIsPrefix(sorted, cutoff);
    PrefixChecks(sorted, |Until(sorted, cutoff)|);
  }

  /** Cutting the raw data and then sorting is cutting the sorted data. */
  lemma CutThenSort(candles: seq<Candle>, cutoff: Time)
    requires CheckOrdered(Sort(candles, OpensFirst)).None?
    ensures Sort(Until(candles, cutoff), OpensFirst) == Until(Sort(candles, OpensFirst), cutoff)
  {
    OpensFirstOrders();
    var sorted := Sort(candles, OpensFirst);
    SortSorted(candles, OpensFirst);
    SortMultiset(candles, OpensFirst);
    SortSorted(Until(candles, cutoff), OpensFirst);
    SortMultiset(Until(candles, cutoff), OpensFirst);
    UntilSorted(sorted, cutoff);
    CheckedNoTies(Until(sorted, cutoff));
    var a, b := Until(sorted, cutoff), Sort(Until(candles, cutoff), OpensFirst);
    forall x ensures multiset(a)[x] == multiset(b)[x] {
      UntilMultiset(sorted, cutoff, x);
      UntilMultiset(candles, cutoff, x);
    }
    assert multiset(a) == multiset(b);
    SortedUnique(a, b, OpensFirst);
  }

  /** Deleting every candle that opens at or after any chosen time, and changing any signal not keyed by a
      remaining candle, leaves the replay in exactly the state the full replay had after those candles. Candles
      of one opening time are cut together: among them one pair's fill may read another's later prices. */
  lemma LaterDataNeverMatters(cfg: Config, candles: seq<Candle>, cutoff: Time, full: SignalIndex, cut: SignalIndex)
    requires ValidConfig(cfg) && AllValid(candles)
    requires ValidateAndOrder(candles).Success? && Until(candles, cutoff) != []
    requires AgreeOn(Until(ValidateAndOrder(candles).value, cutoff), full, cut)
    ensures ValidateAndOrder(Until(candles, cutoff)).Success?
    ensures var ordered := ValidateAndOrder(candles).value;
            var kept := ValidateAndOrder(Until(candles, cutoff)).value;
            && |kept| <= |ordered| && kept == ordered[..|kept|]
            && AllValid(ordered) && AllValid(kept)
            && Run(cfg, cut, kept) == Run(cfg, full, ordered[..|kept|])
  {
    hide Run, CheckOrdered, Sort;
    var ordered := ValidateAndOrder(candles).value;
    OpensFirstOrders();
    SortSorted(candles, OpensFirst);
    CutThenSort(candles, cutoff);
    UntilIsPrefix(ordered, cutoff);
    UntilSorted(ordered, cutoff);
    OrderedValid(candles);
    SignalsElsewhereDoNotMatter(cfg, full, cut, Until(ordered, cutoff));
  }

  lemma OrderedValid(candles: seq<Candle>)
    requires AllValid(candles)
    ensures AllValid(Sort(candles, OpensFirst))
  {
    var sorted := Sort(candles, OpensFirst);
    SortMultiset(candles, OpensFirst);
    forall i | 0 <= i < |sorted| ensures ValidCandle(sorted[i]) {
      assert sorted[i] in multiset(candles);
      assert sorted[i] in candles;
    }
  }

  // ---------------------------------------------------------------- raising

  /** The candle fills a BUY of nothing. */
  predicate FillsNothing(cfg: Config, s: State, c: Candle) {
    && Due(s, c) && s.pending[c.symbol].BuyOrder? && s.pending[c.symbol].stake == 0.0
    && Affordable(cfg, s, c, 0.0)
  }

  lemma SettleRaisesIff(cfg: Config, s: State, earlier: seq<Candle>, c: Candle)
    requires ValidConfig(cfg) && ValidCandle(c)
    requires Staked(cfg, s) && Coupled(earlier, s)
    ensures Settle(cfg, s, c).Failure? <==> FillsNothing(cfg, s, c)
  {
    hide Times, Over, Shaped;
    ExecuteSucceeds(cfg, s, earlier, c);
    var filled := ExecutePending(cfg, s, c).value;
    ExecuteKeepsShape(cfg, s, c);
    SafetyRaisesIff(cfg, filled, c);
  }

  lemma ExecuteSucceeds(cfg: Config, s: State, earlier: seq<Candle>, c: Candle)
    requires ValidConfig(cfg) && ValidCandle(c) && Staked(cfg, s) && Coupled(earlier, s)
    ensures ExecutePending(cfg, s, c).Success?
  {
    hide Times, Over, Shaped;
    if c.symbol in s.positions {
      ZeroCostIff(cfg, s.positions[c.symbol]);
    }
  }

  /** Managing a position raises exactly when its stake is zero. */
  lemma SafetyRaisesIff(cfg: Config, s: State, c: Candle)
    requires ValidConfig(cfg) && AllShaped(cfg, s)
    ensures ApplySafetyExits(cfg, s, c).Failure? <==> c.symbol in s.positions && s.positions[c.symbol].stake == 0.0
  {
    hide Times, Over, Shaped;
    if c.symbol in s.positions {
      ZeroCostIff(cfg, s.positions[c.symbol]);
    }
  }

  /** The candle's signal asks for an entry whose stop distance comes out as zero. */
  predicate SizesByZero(cfg: Config, signals: SignalIndex, c: Candle)
    requires ValidCandle(c)
  {
    && (c.symbol, c.closeTime) in signals
    && var x := signals[(c.symbol, c.closeTime)];
       x.action != Risk.SELL && Risk.StopDistance(c.close, x.atr14, cfg.risk) == 0.0
  }

  lemma DecidedRaisesIff(cfg: Config, signals: SignalIndex, s: State, c: Candle)
    requires ValidCandle(c)
    requires (c.symbol, c.closeTime) in signals ==>
               var x := signals[(c.symbol, c.closeTime)]; x.symbol == c.symbol && x.candleCloseTime == c.closeTime
    ensures Decided(cfg, signals, s, c).Failure? <==> SizesByZero(cfg, signals, c)
  {
    hide AccountState, Risk.StopDistance;
    if (c.symbol, c.closeTime) in signals {
      var signal := signals[(c.symbol, c.closeTime)];
      EvaluateRaisesIff(View(c, signal), AccountState(cfg, s, c.closeTime), cfg.risk, c.closeTime, s.killswitch,
                        signal.symbol in s.pending);
    }
  }

  lemma EvaluateRaisesIff(view: Risk.SignalView, a: Risk.AccountState, config: Risk.RiskConfig, now: Time, kill: bool,
                          dup: bool)
    requires view.price > 0.0
    ensures Risk.Evaluate(view, a, config, now, kill, dup, NO_EXPECTANCY).Failure? <==>
              Risk.StopDistance(view.price, view.atr14, config) == 0.0
  {
    hide Risk.StopDistance, Risk.Decide;
  }

  /** What the index guarantees: each signal sits under its own key. */
  predicate Keyed(signals: SignalIndex) {
    forall key :: key in signals ==> signals[key].symbol == key.0 && signals[key].candleCloseTime == key.1
  }

  lemma {:induction false} IndexIsKeyed(signals: seq<Signal>)
    requires IndexSignals(signals).Success?
    ensures Keyed(IndexSignals(signals).value)
  {
    if signals != [] {
      IndexIsKeyed(signals[..|signals| - 1]);
    }
  }

  /** A candle makes the replay raise exactly when it fills an entry of stake zero or asks for one with a
      stop distance of zero: the mismatch check in the loop is unreachable. */
  lemma StepRaisesIff(cfg: Config, signals: SignalIndex, s: State, earlier: seq<Candle>, c: Candle)
    requires ValidConfig(cfg) && ValidCandle(c) && Keyed(signals)
    requires Staked(cfg, s) && Coupled(earlier, s)
    ensures Step(cfg, signals, s, c).Failure? <==> FillsNothing(cfg, s, c) || SizesByZero(cfg, signals, c)
  {
    hide FillsNothing, SizesByZero;
    SettleRaisesIff(cfg, s, earlier, c);
    if Settle(cfg, s, c).Success? {
      DecidedRaisesIff(cfg, signals, Settle(cfg, s, c).value, c);
    }
  }

  /** Candle `n` is reached and raises. */
  ghost predicate RaisesAt(cfg: Config, signals: SignalIndex, candles: seq<Candle>, n: nat)
    requires ValidConfig(cfg) && AllValid(candles) && n < |candles|
  {
    && Run(cfg, signals, candles[..n]).Success?
    && (FillsNothing(cfg, Run(cfg, signals, candles[..n]).value, candles[n]) || SizesByZero(cfg, signals, candles[n]))
  }

  /** A replay raises exactly when it reaches a candle that fills an entry of stake zero or whose signal
      sizes an entry by a stop distance of zero. */
  lemma {:induction false} RunRaisesIff(cfg: Config, signals: SignalIndex, candles: seq<Candle>)
    requires ValidConfig(cfg) && AllValid(candles) && CheckOrdered(candles).None? && Keyed(signals)
    ensures Run(cfg, signals, candles).Failure? <==>
              exists n :: 0 <= n < |candles| && RaisesAt(cfg, signals, candles, n)
  {
    hide Step, CheckOrdered, FillsNothing, SizesByZero;
    if candles != [] {
      var last := |candles| - 1;
      var earlier := candles[..last];
      LastCandleRaisesIff(cfg, signals, candles);
      forall n | 0 <= n < last ensures RaisesAt(cfg, signals, earlier, n) == RaisesAt(cfg, signals, candles, n) {
        assert earlier[..n] == candles[..n];
      }
      RunRaisesIff(cfg, signals, earlier);
    }
  }

  lemma LastCandleRaisesIff(cfg: Config, signals: SignalIndex, candles: seq<Candle>)
    requires ValidConfig(cfg) && AllValid(candles) && CheckOrdered(candles).None? && candles != [] && Keyed(signals)
    ensures CheckOrdered(candles[..|candles| - 1]).None?
    ensures Run(cfg, signals, candles).Failure? <==>
              Run(cfg, signals, candles[..|candles| - 1]).Failure? || RaisesAt(cfg, signals, candles, |candles| - 1)
  {
    hide FillsNothing, SizesByZero, Settle, Decided, Coupled, Staked;
    var earlier := candles[..|candles| - 1];
    var c := candles[|candles| - 1];
    assert earlier + [c] == candles;
    NextCandleFits(earlier, c);
    if Run(cfg, signals, earlier).Success? {
      RunStaysStaked(cfg, signals, earlier);
      RunStaysCoupled(cfg, signals, earlier);
      StepRaisesIff(cfg, signals, Run(cfg, signals, earlier).value, earlier, c);
    }
  }

  /** An evaluated entry is approved with stake zero exactly when every gate passes and the risk budget, the
      position cap or the free balance is not positive, or the confidence scale is zero. */
  lemma ApprovedZeroStakeIff(view: Risk.SignalView, a: Risk.AccountState, config: Risk.RiskConfig, now: Time,
                             kill: bool, dup: bool)
    requires view.price > 0.0 && Risk.Evaluate(view, a, config, now, kill, dup, NO_EXPECTANCY).Success?
    ensures var d := Risk.Evaluate(view, a, config, now, kill, dup, NO_EXPECTANCY).value;
            var ctx := Risk.Context(view, a, config, now, kill, dup, NO_EXPECTANCY).value;
            var distance := Risk.StopDistance(view.price, view.atr14, config);
            && distance != 0.0
            && (d.approved && d.sizing.value.positionSize == 0.0 <==>
                  RiskFacts.Admissible(ctx)
                  && (Over(Times(a.equity, config.riskPerTradePct), distance) <= 0.0
                      || Times(a.equity, config.maxPositionPct) <= 0.0
                      || a.freeBalance <= 0.0
                      || Risk.ConfidenceScale(view.confidence, config) == 0.0))
  {
    RiskFacts.EvaluateApprovedIff(view, a, config, now, kill, dup, NO_EXPECTANCY);
    RiskFacts.ZeroSizeIff(Over(Times(a.equity, config.riskPerTradePct), Risk.StopDistance(view.price, view.atr14, config)),
                          Times(a.equity, config.maxPositionPct), a.freeBalance,
                          Risk.ConfidenceScale(view.confidence, config));
  }
}
