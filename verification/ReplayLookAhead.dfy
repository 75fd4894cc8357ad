/** Pairs share the cash: a fill at an open reads what another pair's candle of the same open releases later. */
module ReplayLookAhead {
  import opened Arithmetic
  import opened Common
  import opened Replay
  import opened ReplayCausality
  import opened ReplayExamples
  import opened ReplayExits
  import opened ReplayMoney
  import opened ReplayOrders
  import opened ReplaySolvency
  import opened Sums
  import Risk
  import RiskFacts

  /** What a held position's candle adds to the cash: by its stop or its trigger, at its close; or at its open. */
  function Released(cfg: Config, p: OpenPosition, c: Candle): real
    requires ValidConfig(cfg) && Shaped(cfg, p) && p.stake != 0.0
  {
    ZeroCostIff(cfg, p);
    var target := RoiTarget(c.closeTime - p.openedAt);
    if c.low <= p.stopPrice then Proceeds(cfg, p, SellFill(cfg, p.stopPrice))
    else if NetReturnAtPrice(cfg, p, SellFill(cfg, c.open)) >= target then Proceeds(cfg, p, SellFill(cfg, c.open))
    else if c.high >= Trigger(cfg, PriceForNetReturn(cfg, p, target))
    then Proceeds(cfg, p, PriceForNetReturn(cfg, p, target))
    else 0.0
  }

  /** Two candles of one open, the first of a held pair without a waiting order, the second filling an entry: the
      entry is dropped exactly when its cost exceeds the cash together with what the first candle released,
      whether it did so at that open or later. */
  lemma SharedOpenFillIff(cfg: Config, signals: SignalIndex, earlier: seq<Candle>, a: Candle, b: Candle)
    requires ValidConfig(cfg) && AllValid(earlier) && ValidCandle(a) && ValidCandle(b)
    requires CheckOrdered(earlier + [a] + [b]).None? && a.openTime == b.openTime && a.symbol != b.symbol
    requires Run(cfg, signals, earlier).Success? && Step(cfg, signals, Run(cfg, signals, earlier).value, a).Success?
    requires var s := Run(cfg, signals, earlier).value;
             a.symbol in s.positions && a.symbol !in s.pending && b.symbol in PendingBuys(s)
    ensures var s := Run(cfg, signals, earlier).value;
            var stake := s.pending[b.symbol].stake;
            && Staked(cfg, s)
            && (Drops(cfg, Step(cfg, signals, s, a).value, b) <==>
                  stake + Times(stake, cfg.feeRate) > s.cash + Released(cfg, s.positions[a.symbol], a))
  {
    hide Times, Over, Run, CheckOrdered, ProcessSignal, Proceeds, Shaped;
    var s := Run(cfg, signals, earlier).value;
    NextCandleFits(earlier + [a], b);
    NextCandleFits(earlier, a);
    RunStaysStaked(cfg, signals, earlier);
    RunStaysCoupled(cfg, signals, earlier);
    LastCloseAppend(earlier, a, b.symbol);
    ZeroCostIff(cfg, s.positions[a.symbol]);
    var settled := Settle(cfg, s, a).value;
    SafetyReleases(cfg, s, a);
    SignalKeepsMoney(cfg, signals, settled, a);
    OthersKeepTheirOrders(cfg, signals, settled, a, b.symbol);
    SafetyTouchesOnly(cfg, s, a);
  }

  lemma SafetyReleases(cfg: Config, s: State, c: Candle)
    requires ValidConfig(cfg) && Staked(cfg, s) && c.symbol in s.positions
    ensures ApplySafetyExits(cfg, s, c).Success?
    ensures ApplySafetyExits(cfg, s, c).value.cash == s.cash + Released(cfg, s.positions[c.symbol], c)
  {
    hide Times, Over, Proceeds, Shaped;
    ZeroCostIff(cfg, s.positions[c.symbol]);
  }

  lemma OthersKeepTheirOrders(cfg: Config, signals: SignalIndex, s: State, c: Candle, k: Symbol)
    requires k != c.symbol && c.symbol !in s.pending && Decided(cfg, signals, s, c).Success?
    ensures var t := Decided(cfg, signals, s, c).value;
            (k in s.pending <==> k in t.pending) && (k in s.pending ==> t.pending[k] == s.pending[k])
  {
    hide Decided;
    var e := DecisionEffect(cfg, signals, s, c);
  }

  // ----------------------------------------------------------------- a replay of two pairs

  const COSTLY: Config := Setup(0.01, Rules(0.1, 1.0, 2.0, 0.5))

  const OTHER: Candle := Candle(1, HALF_HOUR, 2 * HALF_HOUR, 100.0, 100.0, 100.0, 100.0)
  const OTHER_NEXT: Candle := Candle(1, 2 * HALF_HOUR, 3 * HALF_HOUR, 100.0, 100.0, 100.0, 100.0)

  /** The first pair's candle that opens together with the other pair's fill, falling to `low` afterwards. */
  function Dips(low: real): Candle {
    HalfHour(2, 100.0, 100.0, low, 100.0)
  }

  /** Half of the cash buys the first pair; the rest, all of it, is approved for the other. */
  const TWO_BUYS: SignalIndex :=
    Signals(0.5)[(1, 2 * HALF_HOUR) := Signal(1, 2 * HALF_HOUR, Risk.BUY, 1.0, 100.0)]

  const HELD: OpenPosition := OpenPosition(HALF_HOUR, 100.0, 100.0, 5.0, 500.0, 5.0, 92.0)

  lemma Figures()
    ensures Times(1000.0, 0.1) == 100.0 && Over(100.0, 0.08) == 1250.0 && Times(1000.0, 1.0) == 1000.0
    ensures Times(1000.0, 0.5) == 500.0 && Times(2.0, 1000.0) == 2000.0
    ensures Times(1.0, 0.92) == 0.92 && Times(100.0, 1.0) == 100.0 && Over(500.0, 100.0) == 5.0
    ensures Times(500.0, 0.01) == 5.0 && Times(100.0, 0.92) == 92.0
    ensures Times(5.0, 100.0) == 500.0 && Times(500.0, 0.99) == 495.0
    ensures Times(990.0, 0.1) == 99.0 && Over(99.0, 0.08) == 1237.5 && Times(990.0, 1.0) == 990.0
    ensures Times(2.0, 990.0) == 1980.0 && Times(495.0, 1.0) == 495.0 && Times(495.0, 0.01) == 4.95
    ensures Times(92.0, 1.0) == 92.0 && Times(5.0, 92.0) == 460.0 && Times(460.0, 0.01) == 4.6
  {
  }

  lemma HeldByFirst()
    ensures ValidConfig(COSTLY) && !StopsAtOnce(COSTLY) && Opened(COSTLY, LEVEL, 500.0) == HELD && Cost(HELD) == 505.0
  {
    hide Times, Over;
    Figures();
  }

  lemma FirstBuy() returns (s: State)
    ensures AllValid([FIRST]) && Run(COSTLY, TWO_BUYS, [FIRST]) == Success(s) && Waiting(s, 500.0)
  {
    hide Times, Over, FirstSize, Run, Waiting, Risk.ConfidenceScale, ValidConfig;
    Figures();
    ScaleEnds(0.1, 1.0, 2.0, 0.5);
    SizeAtCap(0.1, 1.0, 2.0, 0.5, 0.5, 0.5);
    s := FirstCandle(0.01, 0.1, 1.0, 2.0, 0.5, 0.5);
    SignalsElsewhereDoNotMatter(COSTLY, TWO_BUYS, Signals(0.5), [FIRST]);
  }

  ghost predicate FirstHeld(s: State, cash: real, pending: map<Symbol, PendingOrder>) {
    && s.cash == cash && s.positions == map[0 := HELD] && s.pending == pending && s.trades == [] && !s.killswitch
    && 0 in s.lastPrices && s.lastPrices[0] == 100.0
  }

  lemma OneTotal(k: Symbol, v: real)
    ensures Total(map[k := v]) == v
  {
    var none: map<Symbol, real> := map[];
    TotalInsert(none, k, v);
    assert none[k := v] == map[k := v];
  }

  /** The account the other pair's signal is judged on. */
  lemma SharedAccount(s: State, now: Time)
    requires FirstHeld(s, 495.0, map[])
    ensures AccountState(COSTLY, s, now) == Risk.AccountState(990.0, 495.0, {0}, 500.0, 0.0, 0, None, map[])
  {
    hide Times, Over;
    Figures();
    assert MarkValues(COSTLY, s) == map[0 := 495.0];
    assert PositionStakes(s) == map[0 := 500.0];
    assert PendingBuys(s) == {};
    assert ReservedCash(COSTLY, s) == map[] && PendingStakes(s) == map[];
    OneTotal(0, 495.0);
    OneTotal(0, 500.0);
    OverAtLeast(0.0, 990.0, 0.0);
    assert Times(0.0, 990.0) == 0.0 by { TimesSign(0.0, 990.0); }
    assert {0} + {} == {0};
  }

  lemma OtherIsApproved(view: Risk.SignalView)
    requires view == View(OTHER, TWO_BUYS[(1, 2 * HALF_HOUR)])
    ensures var account := Risk.AccountState(990.0, 495.0, {0}, 500.0, 0.0, 0, None, map[]);
            var d := Risk.Evaluate(view, account, COSTLY.risk, 2 * HALF_HOUR, false, false, NO_EXPECTANCY);
            && d.Success? && d.value.approved && !d.value.autoTripKillswitch
            && d.value.sizing.Some? && d.value.sizing.value.positionSize == 495.0
  {
    hide Times, Over, Risk.ConfidenceScale, Risk.StopDistance, Risk.FirstViolation;
    var account := Risk.AccountState(990.0, 495.0, {0}, 500.0, 0.0, 0, None, map[]);
    Figures();
    WidestStop(COSTLY.risk);
    ScaleEnds(0.1, 1.0, 2.0, 0.5);
    RiskFacts.EvaluateApprovedIff(view, account, COSTLY.risk, 2 * HALF_HOUR, false, false, NO_EXPECTANCY);
    EvaluateRaisesIff(view, account, COSTLY.risk, 2 * HALF_HOUR, false, false);
    assert |{0} + {1}| == 2;
  }

  lemma OtherIsQueued(s: State) returns (t: State)
    requires FirstHeld(s, 495.0, map[])
    ensures Step(COSTLY, TWO_BUYS, s, OTHER) == Success(t)
    ensures t.cash == 495.0 && t.positions == map[0 := HELD] && t.pending == map[1 := BuyOrder(2 * HALF_HOUR, 495.0)]
  {
    hide Times, Over, AccountState, Equity, Risk.Evaluate;
    var settled := s.(lastPrices := s.lastPrices[1 := 100.0]);
    assert Settle(COSTLY, s, OTHER) == Success(settled);
    SharedAccount(settled, 2 * HALF_HOUR);
    OtherIsApproved(View(OTHER, TWO_BUYS[(1, 2 * HALF_HOUR)]));
    var d := Decided(COSTLY, TWO_BUYS, settled, OTHER);
    assert d.Success? && d.value.pending == map[1 := BuyOrder(2 * HALF_HOUR, 495.0)];
    t := Recorded(COSTLY, d.value, 2 * HALF_HOUR);
  }

  /** What the first pair's candle releases: the stopped position, or nothing. */
  lemma DipReleases(low: real)
    requires 0.0 < low <= 100.0
    ensures Shaped(COSTLY, HELD) && ValidCandle(Dips(low))
    ensures Released(COSTLY, HELD, Dips(low)) == if low <= 92.0 then 455.4 else 0.0
  {
    hide Times, Over, NetReturnAtPrice, PriceForNetReturn, Trigger;
    Figures();
    HeldByFirst();
    OpenedIsShaped(COSTLY, LEVEL, 500.0);
    EntrySurvives(COSTLY, 500.0);
    RateForm(COSTLY, HELD);
    TriggerAboveOpen(COSTLY, HELD, Dips(low), 0.05);
  }

  lemma OneMoreInOrder(earlier: seq<Candle>, c: Candle)
    requires CheckOrdered(earlier).None?
    requires forall i :: 0 <= i < |earlier| ==> earlier[i].symbol != c.symbol || earlier[i].openTime != c.openTime
    requires LastClose(earlier, c.symbol).Some? ==> LastClose(earlier, c.symbol).value <= c.openTime
    ensures CheckOrdered(earlier + [c]).None?
    ensures forall k :: LastClose(earlier + [c], k) == if k == c.symbol then Some(c.closeTime) else LastClose(earlier, k)
  {
    assert (earlier + [c])[..|earlier + [c]| - 1] == earlier;
  }

  lemma TwoPairsInOrder(low: real)
    requires 0.0 < low <= 100.0
    ensures var earlier := [FIRST, LEVEL, OTHER];
            && AllValid(earlier) && ValidCandle(Dips(low)) && ValidCandle(OTHER_NEXT)
            && CheckOrdered(earlier + [Dips(low)] + [OTHER_NEXT]).None?
  {
    hide CheckOrdered, LastClose;
    assert [] + [FIRST] == [FIRST] && [FIRST] + [LEVEL] == [FIRST, LEVEL];
    assert [FIRST, LEVEL] + [OTHER] == [FIRST, LEVEL, OTHER];
    NothingInOrder();
    OneMoreInOrder([], FIRST);
    OneMoreInOrder([FIRST], LEVEL);
    OneMoreInOrder([FIRST, LEVEL], OTHER);
    OneMoreInOrder([FIRST, LEVEL, OTHER], Dips(low));
    OneMoreInOrder([FIRST, LEVEL, OTHER] + [Dips(low)], OTHER_NEXT);
  }

  lemma NothingInOrder()
    ensures CheckOrdered([]).None? && forall k :: LastClose([], k) == None
  {
  }

  /** Two replays that differ only in how low one pair falls after an open: the other pair's entry at that very
      open is filled exactly when the fall reaches the first pair's stop. */
  lemma LaterLowDecidesFill(low: real) returns (s: State)
    requires 0.0 < low <= 100.0
    ensures var candles := [FIRST, LEVEL, OTHER] + [Dips(low)];
            && AllValid(candles) && CheckOrdered(candles + [OTHER_NEXT]).None?
            && Dips(low).openTime == OTHER_NEXT.openTime
            && Run(COSTLY, TWO_BUYS, candles) == Success(s)
            && Due(s, OTHER_NEXT) && s.pending[1].BuyOrder?
            && (Drops(COSTLY, s, OTHER_NEXT) <==> low > 92.0)
  {
    hide Times, Over, Step, CheckOrdered, Drops, Waiting, Opened, StopsAtOnce, Released;
    TwoPairsInOrder(low);
    HeldByFirst();
    var s1 := FirstBuy();
    WaitingMeans(s1, 500.0);
    var s2 := EntryIsOpened(COSTLY, TWO_BUYS, s1, 500.0);
    var s3 := OtherIsQueued(s2);
    var earlier := [FIRST, LEVEL, OTHER];
    assert earlier[..2] == [FIRST, LEVEL] && [FIRST, LEVEL][..1] == [FIRST];
    assert Run(COSTLY, TWO_BUYS, [FIRST, LEVEL]) == Success(s2);
    assert Run(COSTLY, TWO_BUYS, earlier) == Success(s3);
    s := DippedCandle(low, s3);
    assert (earlier + [Dips(low)])[..3] == earlier;
    assert Run(COSTLY, TWO_BUYS, earlier + [Dips(low)]) == Success(s);
    DipReleases(low);
    Figures();
    SharedOpenFillIff(COSTLY, TWO_BUYS, earlier, Dips(low), OTHER_NEXT);
  }

  lemma WaitingMeans(s: State, stake: real)
    requires Waiting(s, stake)
    ensures s.cash == 1000.0 && s.positions == map[] && s.trades == [] && !s.killswitch
    ensures s.pending == map[0 := BuyOrder(HALF_HOUR, stake)]
  {
  }

  lemma DippedCandle(low: real, s: State) returns (t: State)
    requires 0.0 < low <= 100.0
    requires s.positions == map[0 := HELD] && s.pending == map[1 := BuyOrder(2 * HALF_HOUR, 495.0)]
    ensures ValidCandle(Dips(low)) && Step(COSTLY, TWO_BUYS, s, Dips(low)) == Success(t)
    ensures t.pending == s.pending
  {
    hide Times, Over, ApplySafetyExits, Equity;
    HeldByFirst();
    OpenedIsShaped(COSTLY, LEVEL, 500.0);
    SafetyReleases(COSTLY, s, Dips(low));
    SafetyTouchesOnly(COSTLY, s, Dips(low));
    t := Recorded(COSTLY, Settle(COSTLY, s, Dips(low)).value, 3 * HALF_HOUR);
  }
}
