/** The deterministic rubric around the language model: market context, regime, the semantic validator
    and the pre-filter that predicts it. */
module Semantic {
  import opened Arithmetic
  import opened Common
  import opened Risk

  // ---------------------------------------------------------------- context

  datatype EntryFact =
    | PriceAboveEmas | EmaFastAboveSlow | BullishMacd | RsiMid | HigherHighsAndLows | RisingOnHighVolume

  datatype ExitFact =
    | PriceBelowEmas | EmaFastBelowSlow | BearishMacd | RsiLow | LowerHighsAndLows | FallingOnHighVolume

  datatype Category = Trend | Momentum | PriceAction

  function EntryCategory(f: EntryFact): Category {
    match f
    case PriceAboveEmas => Trend
    case EmaFastAboveSlow => Trend
    case BullishMacd => Momentum
    case RsiMid => Momentum
    case HigherHighsAndLows => PriceAction
    case RisingOnHighVolume => PriceAction
  }

  function ExitCategory(f: ExitFact): Category {
    match f
    case PriceBelowEmas => Trend
    case EmaFastBelowSlow => Trend
    case BearishMacd => Momentum
    case RsiLow => Momentum
    case LowerHighsAndLows => PriceAction
    case FallingOnHighVolume => PriceAction
  }

  datatype MarketContext = MarketContext(
    hasOpenPosition: bool,
    unrealizedPnlPct: Option<real>,
    priceAboveEma50: bool,
    priceAboveEma200: bool,
    emaGapPct: real,
    histogramAtrRatio: real,
    volumeAboveAverage: bool,
    entryConfirmations: seq<EntryFact>,
    exitConfirmations: seq<ExitFact>
  )

  // ----------------------------------------------------------------- regime

  datatype StrategyName = TrendPullback | TrendFollowing | MomentumContinuation | MeanReversion

  const TREND_GAP_THRESHOLD_PCT: real := 0.015
  const MOMENTUM_BURST_RATIO: real := 0.15

  predicate IsTrending(ctx: MarketContext) {
    ctx.emaGapPct >= TREND_GAP_THRESHOLD_PCT || -ctx.emaGapPct >= TREND_GAP_THRESHOLD_PCT
  }

  predicate AlignedWithTrend(ctx: MarketContext) {
    if ctx.emaGapPct > 0.0 then ctx.priceAboveEma50 && ctx.priceAboveEma200
    else !ctx.priceAboveEma50 && !ctx.priceAboveEma200
  }

  predicate MomentumBurst(ctx: MarketContext) {
    ctx.histogramAtrRatio >= MOMENTUM_BURST_RATIO && ctx.volumeAboveAverage
  }

  function Ranked(ctx: MarketContext): seq<StrategyName> {
    var trend := if !IsTrending(ctx) then []
                 else if AlignedWithTrend(ctx) then [TrendFollowing] else [TrendPullback];
    var ranked := trend + if MomentumBurst(ctx) then [MomentumContinuation] else [];
    if ranked == [] then [MeanReversion] else ranked
  }

  function Regime(ctx: MarketContext): StrategyName {
    Ranked(ctx)[0]
  }

  /** `select`: the first regime whose test passes leads, the others are alternatives. */
  method Select(ctx: MarketContext) returns (strategy: StrategyName, alternatives: seq<StrategyName>)
    ensures strategy == Regime(ctx) && [strategy] + alternatives == Ranked(ctx)
    ensures strategy == TrendFollowing <==> IsTrending(ctx) && AlignedWithTrend(ctx)
    ensures strategy !in alternatives
  {
    var ranked := [];
    var isPullback := IsTrending(ctx) && !AlignedWithTrend(ctx);
    if isPullback {
      ranked := ranked + [TrendPullback];
    } else if IsTrending(ctx) {
      ranked := ranked + [TrendFollowing];
    }
    if MomentumBurst(ctx) {
      ranked := ranked + [MomentumContinuation];
    }
    if ranked == [] {
      ranked := ranked + [MeanReversion];
    }
    strategy, alternatives := ranked[0], ranked[1..];
  }

  // -------------------------------------------------------------- validator

  datatype Thresholds = Thresholds(minExitProfit: real, minExitLoss: real, hardLossCut: real)

  datatype Output = Output(action: Action, confidence: real)

  datatype Validated = Validated(output: Output, actionChanged: bool, exitConfirmations: seq<ExitFact>)

  function EntryCategories(facts: seq<EntryFact>): set<Category> {
    set i | 0 <= i < |facts| :: EntryCategory(facts[i])
  }

  function ExitCategories(facts: seq<ExitFact>): set<Category> {
    set i | 0 <= i < |facts| :: ExitCategory(facts[i])
  }

  /** Three confirmations, a trend and a momentum one among them. */
  predicate EntryIsSufficient(facts: seq<EntryFact>) {
    |facts| >= 3 && Trend in EntryCategories(facts) && Momentum in EntryCategories(facts)
  }

  /** Two confirmations from two categories. */
  predicate ExitIsSufficient(facts: seq<ExitFact>) {
    |facts| >= 2 && |ExitCategories(facts)| >= 2
  }

  predicate BreachesHardCut(ctx: MarketContext, th: Thresholds) {
    ctx.hasOpenPosition && ctx.unrealizedPnlPct.Some? && ctx.unrealizedPnlPct.value <= -th.hardLossCut
  }

  function ValidateSemantics(ctx: MarketContext, output: Output, th: Thresholds): Validated {
    var pnl := ctx.unrealizedPnlPct;
    var isProfitable := pnl.Some? && pnl.value > th.minExitProfit;
    var isLosing := pnl.Some? && pnl.value < -th.minExitLoss;
    var confirmations := if ctx.hasOpenPosition then ctx.exitConfirmations else [];
    if BreachesHardCut(ctx, th) then
      Validated(Output(SELL, 0.80), output.action != SELL, confirmations)
    else if output.action == SELL && ctx.hasOpenPosition && ExitIsSufficient(confirmations)
            && (isProfitable || isLosing) then
      Validated(Output(SELL, Min(0.80, 0.65 + Times(0.05, (|confirmations| - 2) as real))), false, confirmations)
    else if output.action == HOLD then
      Validated(output, false, confirmations)
    else if output.action == BUY && !ctx.hasOpenPosition && EntryIsSufficient(ctx.entryConfirmations)
            && Regime(ctx) != TrendFollowing then
      Validated(output, false, confirmations)
    else
      Validated(Output(HOLD, Min(output.confidence, 0.64)), true, confirmations)
  }

  /** The pre-filter's prediction: could any model answer end as a trade? */
  predicate LlmCanChangeOutcome(ctx: MarketContext, th: Thresholds) {
    if !ctx.hasOpenPosition then
      EntryIsSufficient(ctx.entryConfirmations) && Regime(ctx) != TrendFollowing
    else if ctx.unrealizedPnlPct.None? then false
    else if ctx.unrealizedPnlPct.value <= -th.hardLossCut then true
    else
      (ctx.unrealizedPnlPct.value > th.minExitProfit || ctx.unrealizedPnlPct.value < -th.minExitLoss)
      && ExitIsSufficient(ctx.exitConfirmations)
  }

  /** The pre-filter is exact: it skips the model exactly when every answer would become HOLD. */
  lemma PrefilterIsExact(ctx: MarketContext, th: Thresholds)
    ensures !LlmCanChangeOutcome(ctx, th) <==>
              forall output: Output :: ValidateSemantics(ctx, output, th).output.action == HOLD
  {
    if LlmCanChangeOutcome(ctx, th) {
      var answer := Output(if ctx.hasOpenPosition then SELL else BUY, 1.0);
      assert ValidateSemantics(ctx, answer, th).output.action != HOLD;
    }
  }

  /** Outside the hard loss-cut, validation keeps the model's action or turns it into HOLD, reports a
      change exactly when it did, and never raises the confidence of what it suppresses. Inside, it
      sells whatever the model said. */
  lemma ValidationOnlySuppresses(ctx: MarketContext, output: Output, th: Thresholds)
    ensures var v := ValidateSemantics(ctx, output, th);
            && (BreachesHardCut(ctx, th) ==> v.output == Output(SELL, 0.80))
            && (!BreachesHardCut(ctx, th) ==> v.output.action in {output.action, HOLD})
            && (v.actionChanged <==> v.output.action != output.action)
            && (v.actionChanged && !BreachesHardCut(ctx, th) ==>
                  v.output.confidence <= output.confidence && v.output.confidence <= 0.64)
  {
  }

  // --------------------------------------------------------- context builder

  datatype Candle = Candle(high: real, low: real, close: real, volume: real)

  datatype Indicators = Indicators(
    ema50: real, ema200: real, macd: real, macdSignal: real, histogram: real, rsi14: real, atr14: real,
    volumeSma20: real)

  /** Guards a ratio against a zero denominator. */
  function SafeRatio(numerator: real, denominator: real): real {
    if denominator != 0.0 then Over(numerator, denominator) else 0.0
  }

  /** The last three candles rise (or, swapped, fall) in both highs and lows. */
  predicate Rises(candles: seq<Candle>)
    requires |candles| >= 3
  {
    var n := |candles|;
    && candles[n - 3].high < candles[n - 2].high < candles[n - 1].high
    && candles[n - 3].low < candles[n - 2].low < candles[n - 1].low
  }

  predicate Falls(candles: seq<Candle>)
    requires |candles| >= 3
  {
    var n := |candles|;
    && candles[n - 3].high > candles[n - 2].high > candles[n - 1].high
    && candles[n - 3].low > candles[n - 2].low > candles[n - 1].low
  }

  /** What each entry confirmation says about the numbers. */
  predicate EntryHolds(f: EntryFact, candles: seq<Candle>, x: Indicators)
    requires candles != []
  {
    var n := |candles|;
    var latest := candles[n - 1];
    match f
    case PriceAboveEmas => latest.close > x.ema50 && latest.close > x.ema200
    case EmaFastAboveSlow => x.ema50 > x.ema200
    case BullishMacd => x.histogram > 0.0 && x.macd > x.macdSignal
    case RsiMid => 45.0 <= x.rsi14 < 70.0
    case HigherHighsAndLows => n >= 3 && Rises(candles)
    case RisingOnHighVolume => n >= 2 && latest.close > candles[n - 2].close && latest.volume > x.volumeSma20
  }

  predicate ExitHolds(f: ExitFact, candles: seq<Candle>, x: Indicators)
    requires candles != []
  {
    var n := |candles|;
    var latest := candles[n - 1];
    match f
    case PriceBelowEmas => latest.close < x.ema50 && latest.close < x.ema200
    case EmaFastBelowSlow => x.ema50 < x.ema200
    case BearishMacd => x.histogram < 0.0 && x.macd < x.macdSignal
    case RsiLow => x.rsi14 < 45.0
    case LowerHighsAndLows => n >= 3 && Falls(candles)
    case FallingOnHighVolume => n >= 2 && latest.close < candles[n - 2].close && latest.volume > x.volumeSma20
  }

  predicate NoRepeats<T(==)>(xs: seq<T>) {
    forall i, j :: 0 <= i < j < |xs| ==> xs[i] != xs[j]
  }

  /** Appends a new fact when it holds. */
  method AppendIf<T(==, !new)>(facts: seq<T>, holds: bool, f: T) returns (r: seq<T>)
    requires NoRepeats(facts) && f !in facts
    ensures NoRepeats(r)
    ensures forall g :: g in r <==> g in facts || (holds && g == f)
  {
    r := if holds then facts + [f] else facts;
  }

  lemma NothingRepeats<T>()
    ensures NoRepeats<T>([])
  {
  }

  /** `_entry_confirmations`: exactly the facts that hold, each once, so counting them counts
      different facts. */
  method EntryConfirmations(candles: seq<Candle>, x: Indicators) returns (facts: seq<EntryFact>)
    ensures candles == [] ==> facts == []
    ensures candles != [] ==> NoRepeats(facts) && forall f :: f in facts <==> EntryHolds(f, candles, x)
  {
    hide NoRepeats, Rises;
    if candles == [] {
      return [];
    }
    var n := |candles|;
    var latest := candles[n - 1];
    facts := [];
    NothingRepeats<EntryFact>();
    facts := AppendIf(facts, latest.close > x.ema50 && latest.close > x.ema200, PriceAboveEmas);
    facts := AppendIf(facts, x.ema50 > x.ema200, EmaFastAboveSlow);
    facts := AppendIf(facts, x.histogram > 0.0 && x.macd > x.macdSignal, BullishMacd);
    facts := AppendIf(facts, 45.0 <= x.rsi14 < 70.0, RsiMid);
    facts := AppendIf(facts, n >= 3 && Rises(candles), HigherHighsAndLows);
    facts := AppendIf(facts, n >= 2 && latest.close > candles[n - 2].close && latest.volume > x.volumeSma20, RisingOnHighVolume);
  }

  /** `_exit_confirmations`, the bearish mirror. */
  method ExitConfirmations(candles: seq<Candle>, x: Indicators) returns (facts: seq<ExitFact>)
    ensures candles == [] ==> facts == []
    ensures candles != [] ==> NoRepeats(facts) && forall f :: f in facts <==> ExitHolds(f, candles, x)
  {
    hide NoRepeats, Falls;
    if candles == [] {
      return [];
    }
    var n := |candles|;
    var latest := candles[n - 1];
    facts := [];
    NothingRepeats<ExitFact>();
    facts := AppendIf(facts, latest.close < x.ema50 && latest.close < x.ema200, PriceBelowEmas);
    facts := AppendIf(facts, x.ema50 < x.ema200, EmaFastBelowSlow);
    facts := AppendIf(facts, x.histogram < 0.0 && x.macd < x.macdSignal, BearishMacd);
    facts := AppendIf(facts, x.rsi14 < 45.0, RsiLow);
    facts := AppendIf(facts, n >= 3 && Falls(candles), LowerHighsAndLows);
    facts := AppendIf(facts, n >= 2 && latest.close < candles[n - 2].close && latest.volume > x.volumeSma20, FallingOnHighVolume);
  }

  /** `build`: the context of one request. */
  method BuildContext(candles: seq<Candle>, x: Indicators, hasOpenPosition: bool, pnl: Option<real>)
    returns (ctx: MarketContext)
    ensures Built(ctx, candles, x)
    ensures ctx.hasOpenPosition == hasOpenPosition && ctx.unrealizedPnlPct == pnl
    ensures if x.ema200 == 0.0 then ctx.emaGapPct == 0.0 else Times(ctx.emaGapPct, x.ema200) == x.ema50 - x.ema200
    ensures if x.atr14 == 0.0 then ctx.histogramAtrRatio == 0.0
            else Times(ctx.histogramAtrRatio, x.atr14) == if x.histogram < 0.0 then -x.histogram else x.histogram
  {
    var entry := EntryConfirmations(candles, x);
    var exit := ExitConfirmations(candles, x);
    var n := |candles|;
    ctx := MarketContext(hasOpenPosition, pnl,
                         n > 0 && candles[n - 1].close > x.ema50,
                         n > 0 && candles[n - 1].close > x.ema200,
                         SafeRatio(x.ema50 - x.ema200, x.ema200),
                         SafeRatio(if x.histogram < 0.0 then -x.histogram else x.histogram, x.atr14),
                         n > 0 && candles[n - 1].volume > x.volumeSma20,
                         entry, exit);
  }

  /** What the builder guarantees about a context and the request it came from. */
  predicate Built(ctx: MarketContext, candles: seq<Candle>, x: Indicators) {
    && ctx.emaGapPct == SafeRatio(x.ema50 - x.ema200, x.ema200)
    && ctx.priceAboveEma50 == (candles != [] && candles[|candles| - 1].close > x.ema50)
    && ctx.priceAboveEma200 == (candles != [] && candles[|candles| - 1].close > x.ema200)
    && ctx.volumeAboveAverage == (candles != [] && candles[|candles| - 1].volume > x.volumeSma20)
    && ctx.histogramAtrRatio == SafeRatio(if x.histogram < 0.0 then -x.histogram else x.histogram, x.atr14)
    && NoRepeats(ctx.entryConfirmations) && NoRepeats(ctx.exitConfirmations)
    && (candles == [] ==> ctx.entryConfirmations == [] && ctx.exitConfirmations == [])
    && (candles != [] ==>
          && (forall f :: f in ctx.entryConfirmations <==> EntryHolds(f, candles, x))
          && (forall f :: f in ctx.exitConfirmations <==> ExitHolds(f, candles, x)))
  }

  lemma ThirdIndex(n: nat, i: nat, j: nat) returns (k: nat)
    requires n >= 3
    ensures k < n && k != i && k != j
  {
    k := if i != 0 && j != 0 then 0 else if i != 1 && j != 1 then 1 else 2;
  }

  lemma GapBelowThreshold(x: Indicators)
    ensures x.ema200 > 0.0 ==>
              (SafeRatio(x.ema50 - x.ema200, x.ema200) < 0.015 <==> x.ema50 < Times(x.ema200, 1.015))
  {
    if x.ema200 > 0.0 {
      OverAtLeast(x.ema50 - x.ema200, x.ema200, 0.015);
      assert Times(x.ema200, 1.015) == x.ema200 + Times(0.015, x.ema200);
    }
  }

  lemma SurvivingBuyPassed(ctx: MarketContext, output: Output, th: Thresholds)
    requires ValidateSemantics(ctx, output, th).output.action == BUY
    ensures output.action == BUY && !ctx.hasOpenPosition && EntryIsSufficient(ctx.entryConfirmations)
    ensures !(IsTrending(ctx) && AlignedWithTrend(ctx))
  {
  }

  lemma DifferentFacts(facts: seq<EntryFact>) returns (f: EntryFact, g: EntryFact, h: EntryFact)
    requires EntryIsSufficient(facts) && NoRepeats(facts)
    ensures f in facts && g in facts && h in facts && f != g && g != h && f != h
    ensures EntryCategory(f) == Trend && EntryCategory(g) == Momentum
  {
    var i :| 0 <= i < |facts| && EntryCategory(facts[i]) == Trend;
    var j :| 0 <= j < |facts| && EntryCategory(facts[j]) == Momentum;
    var k := ThirdIndex(|facts|, i, j);
    f, g, h := facts[i], facts[j], facts[k];
  }

  /** A BUY that survives validation of a built context is backed by three different facts that hold of
      the request, a trend and a momentum one among them, and is never a chase: price is not above both
      averages once the fast one leads the slow one by the trend threshold. */
  lemma SurvivingBuyIsFresh(ctx: MarketContext, candles: seq<Candle>, x: Indicators, output: Output, th: Thresholds)
    requires Built(ctx, candles, x)
    requires ValidateSemantics(ctx, output, th).output.action == BUY
    ensures output.action == BUY && !ctx.hasOpenPosition && candles != []
    ensures exists f, g, h ::
              && f != g && g != h && f != h
              && EntryHolds(f, candles, x) && EntryHolds(g, candles, x) && EntryHolds(h, candles, x)
              && EntryCategory(f) == Trend && EntryCategory(g) == Momentum
    ensures x.ema200 > 0.0 && candles[|candles| - 1].close > x.ema50 && candles[|candles| - 1].close > x.ema200 ==>
              x.ema50 < Times(x.ema200, 1.015)
    ensures EntryHolds(PriceAboveEmas, candles, x) || EntryHolds(EmaFastAboveSlow, candles, x)
    ensures EntryHolds(BullishMacd, candles, x) || EntryHolds(RsiMid, candles, x)
  {
    hide EntryHolds, Times, SafeRatio, ValidateSemantics, EntryIsSufficient;
    SurvivingBuyPassed(ctx, output, th);
    var f, g, h := DifferentFacts(ctx.entryConfirmations);
    assert EntryHolds(f, candles, x) && EntryHolds(g, candles, x) && EntryHolds(h, candles, x);
    GapBelowThreshold(x);
  }

  /** No fact and its mirror image are ever confirmed together. */
  lemma ConfirmationsNeverContradict(ctx: MarketContext, candles: seq<Candle>, x: Indicators)
    requires Built(ctx, candles, x)
    ensures !(PriceAboveEmas in ctx.entryConfirmations && PriceBelowEmas in ctx.exitConfirmations)
    ensures !(EmaFastAboveSlow in ctx.entryConfirmations && EmaFastBelowSlow in ctx.exitConfirmations)
    ensures !(BullishMacd in ctx.entryConfirmations && BearishMacd in ctx.exitConfirmations)
    ensures !(RsiMid in ctx.entryConfirmations && RsiLow in ctx.exitConfirmations)
    ensures !(HigherHighsAndLows in ctx.entryConfirmations && LowerHighsAndLows in ctx.exitConfirmations)
    ensures !(RisingOnHighVolume in ctx.entryConfirmations && FallingOnHighVolume in ctx.exitConfirmations)
  {
    if candles != [] {
      forall f ensures f in ctx.entryConfirmations <==> EntryHolds(f, candles, x) {
      }
    }
  }
}
