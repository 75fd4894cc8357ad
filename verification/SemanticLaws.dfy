/** When a model's trade survives validation, in terms of the request's own candles and indicators. */
module SemanticLaws {
  import opened Arithmetic
  import opened Common
  import opened Risk
  import opened Semantic

  // ------------------------------------------------------------------ regime

  function Abs(a: real): real {
    if a < 0.0 then -a else a
  }

  /** The averages are at least 1.5% of the slow one apart. */
  predicate WideGap(x: Indicators) {
    x.ema200 != 0.0 && Abs(x.ema50 - x.ema200) >= Times(0.015, Abs(x.ema200))
  }

  /** The price has already followed such a gap: beyond both averages on the fast one's side. */
  predicate Chases(candles: seq<Candle>, x: Indicators)
    requires candles != []
  {
    var close := candles[|candles| - 1].close;
    && WideGap(x)
    && if (x.ema50 > x.ema200) == (x.ema200 > 0.0) then close > x.ema50 && close > x.ema200
       else close <= x.ema50 && close <= x.ema200
  }

  /** A histogram of at least 15% of the ATR on more than average volume. */
  predicate Bursts(candles: seq<Candle>, x: Indicators)
    requires candles != []
  {
    x.atr14 > 0.0 && Abs(x.histogram) >= Times(0.15, x.atr14) && candles[|candles| - 1].volume > x.volumeSma20
  }

  lemma GapRatio(x: Indicators)
    ensures var gap := SafeRatio(x.ema50 - x.ema200, x.ema200);
            && (gap >= 0.015 || -gap >= 0.015 <==> WideGap(x))
            && (WideGap(x) ==> (gap > 0.0 <==> ((x.ema50 > x.ema200) == (x.ema200 > 0.0))))
  {
    var d, e := x.ema50 - x.ema200, x.ema200;
    if e > 0.0 {
      RatioBounds(d, e);
    } else if e < 0.0 {
      RatioBounds(-d, -e);
      OverTimes(d, e);
      var q := Over(d, e);
      assert Times(q, -e) == -d;
      OverTimes(q, -e);
    }
  }

  lemma RatioBounds(d: real, e: real)
    requires e > 0.0
    ensures Over(d, e) >= 0.015 <==> d >= Times(0.015, e)
    ensures -Over(d, e) >= 0.015 <==> -d >= Times(0.015, e)
    ensures Over(d, e) > 0.0 <==> d > 0.0
  {
    OverAtLeast(d, e, 0.015);
    OverAtLeast(-d, e, 0.015);
    OverAtLeast(d, e, 0.0);
    OverTimes(d, e);
    assert Times(-Over(d, e), e) == -d;
    OverTimes(-Over(d, e), e);
  }

  lemma BurstRatio(x: Indicators)
    ensures SafeRatio(Abs(x.histogram), x.atr14) >= 0.15 <==> x.atr14 > 0.0 && Abs(x.histogram) >= Times(0.15, x.atr14)
  {
    var h, a := Abs(x.histogram), x.atr14;
    if a > 0.0 {
      OverAtLeast(h, a, 0.15);
    } else if a < 0.0 {
      OverTimes(h, a);
      var q := Over(h, a);
      TimesSign(q, -a);
      assert Times(q, -a) == -h;
    }
  }

  /** The regimes of a request, leading one first: a chased or an unfollowed wide gap, a burst, else a range. */
  lemma RegimeOfRequest(ctx: MarketContext, candles: seq<Candle>, x: Indicators)
    requires Built(ctx, candles, x) && candles != []
    ensures Ranked(ctx) == if WideGap(x) then
                             [if Chases(candles, x) then TrendFollowing else TrendPullback]
                             + (if Bursts(candles, x) then [MomentumContinuation] else [])
                           else [if Bursts(candles, x) then MomentumContinuation else MeanReversion]
  {
    hide SafeRatio, EntryHolds, ExitHolds, NoRepeats;
    GapRatio(x);
    BurstRatio(x);
  }

  predicate StepsUp(a: Candle, b: Candle) {
    a.high < b.high && a.low < b.low
  }

  /** Rising means that each of the last two candles tops and bottoms above the one before it; falling is rising
      backwards. */
  lemma RisesStepwise(candles: seq<Candle>)
    requires |candles| >= 3
    ensures var n := |candles|;
            && (Rises(candles) <==> forall i :: n - 2 <= i < n ==> StepsUp(candles[i - 1], candles[i]))
            && (Falls(candles) <==> forall i :: n - 2 <= i < n ==> StepsUp(candles[i], candles[i - 1]))
  {
    hide Rises, Falls;
    var n := |candles|;
    assert Rises(candles) <==> StepsUp(candles[n - 3], candles[n - 2]) && StepsUp(candles[n - 2], candles[n - 1]) by {
      RisesTwice(candles);
    }
    assert Falls(candles) <==> StepsUp(candles[n - 2], candles[n - 3]) && StepsUp(candles[n - 1], candles[n - 2]) by {
      RisesTwice(candles);
    }
  }

  lemma RisesTwice(candles: seq<Candle>)
    requires |candles| >= 3
    ensures var n := |candles|;
            && (Rises(candles) <==> StepsUp(candles[n - 3], candles[n - 2]) && StepsUp(candles[n - 2], candles[n - 1]))
            && (Falls(candles) <==> StepsUp(candles[n - 2], candles[n - 3]) && StepsUp(candles[n - 1], candles[n - 2]))
  {
  }

  // ------------------------------------------------------------------- exits

  predicate SameExitKind(f: ExitFact, g: ExitFact) {
    || {f, g} <= {PriceBelowEmas, EmaFastBelowSlow}
    || {f, g} <= {BearishMacd, RsiLow}
    || {f, g} <= {LowerHighsAndLows, FallingOnHighVolume}
  }

  /** Two facts of different kinds speak for an exit. */
  ghost predicate ExitBacked(candles: seq<Candle>, x: Indicators) {
    candles != [] && exists f, g :: ExitHolds(f, candles, x) && ExitHolds(g, candles, x) && !SameExitKind(f, g)
  }

  lemma TwoKinds(facts: seq<ExitFact>)
    ensures ExitIsSufficient(facts) <==> exists f, g :: f in facts && g in facts && !SameExitKind(f, g)
  {
    hide SameExitKind;
    var kinds := ExitCategories(facts);
    if ExitIsSufficient(facts) {
      var a := ExitCategory(facts[0]);
      assert a in kinds;
      TwoMembers(kinds, a);
      var b :| b in kinds && b != a;
      var i :| 0 <= i < |facts| && ExitCategory(facts[i]) == b;
      KindIsCategory(facts[0], facts[i]);
    }
    if f, g :| f in facts && g in facts && !SameExitKind(f, g) {
      KindIsCategory(f, g);
      var i :| 0 <= i < |facts| && facts[i] == f;
      var j :| 0 <= j < |facts| && facts[j] == g;
      assert {ExitCategory(f), ExitCategory(g)} <= kinds;
      Fewer({ExitCategory(f), ExitCategory(g)}, kinds);
    }
  }

  lemma KindIsCategory(f: ExitFact, g: ExitFact)
    ensures SameExitKind(f, g) <==> ExitCategory(f) == ExitCategory(g)
  {
  }

  lemma TwoMembers<T>(s: set<T>, a: T)
    requires a in s && |s| >= 2
    ensures exists b :: b in s && b != a
  {
    var rest := s - {a};
    assert |rest| == |s| - 1;
    var b :| b in rest;
  }

  lemma Fewer<T>(a: set<T>, b: set<T>)
    requires a <= b
    ensures |a| <= |b|
  {
    assert b == a + (b - a);
  }

  /** The facts that speak for an exit. */
  function ExitFacts(candles: seq<Candle>, x: Indicators): set<ExitFact> {
    set f: ExitFact | candles != [] && ExitHolds(f, candles, x)
  }

  lemma {:induction false} DistinctSize<T>(xs: seq<T>)
    requires NoRepeats(xs)
    ensures |set x | x in xs| == |xs|
  {
    if xs != [] {
      DistinctSize(xs[1..]);
      assert (set x | x in xs) == (set x | x in xs[1..]) + {xs[0]};
    } else {
      assert (set x | x in xs) == {};
    }
  }

  /** Outside the hard cut a model's SELL is kept exactly when a position is open, its known P&L is beyond one of
      the margins, and two facts of different kinds hold; its confidence then grows with the number of facts from
      0.65 by 0.05 up to 0.80. Otherwise it becomes a HOLD of at most 0.64. */
  lemma SellKeptIff(ctx: MarketContext, candles: seq<Candle>, x: Indicators, confidence: real, th: Thresholds)
    requires Built(ctx, candles, x)
    requires !(ctx.hasOpenPosition && ctx.unrealizedPnlPct.Some? && ctx.unrealizedPnlPct.value <= -th.hardLossCut)
    ensures var v := ValidateSemantics(ctx, Output(SELL, confidence), th).output;
            var pnl, n := ctx.unrealizedPnlPct, |ExitFacts(candles, x)|;
            if ctx.hasOpenPosition && pnl.Some? && (pnl.value > th.minExitProfit || pnl.value < -th.minExitLoss)
               && ExitBacked(candles, x)
            then n >= 2 && v == Output(SELL, if n == 2 then 0.65 else if n == 3 then 0.70 else if n == 4 then 0.75 else 0.80)
            else v == Output(HOLD, if confidence <= 0.64 then confidence else 0.64)
  {
    hide ExitHolds, EntryHolds, SameExitKind, ExitIsSufficient;
    var facts := ctx.exitConfirmations;
    TwoKinds(facts);
    assert ExitIsSufficient(facts) <==> ExitBacked(candles, x) by {
      if candles != [] {
        forall f ensures f in facts <==> ExitHolds(f, candles, x) {
        }
      }
    }
    FactCount(ctx, candles, x);
    SufficientTwo(facts);
    assert Times(0.05, 0.0) == 0.0 && Times(0.05, 1.0) == 0.05 && Times(0.05, 2.0) == 0.1;
    if |facts| >= 5 {
      TimesRight(0.05, 3.0, (|facts| - 2) as real);
    }
  }

  lemma SufficientTwo(facts: seq<ExitFact>)
    ensures ExitIsSufficient(facts) ==> |facts| >= 2
  {
  }

  lemma FactCount(ctx: MarketContext, candles: seq<Candle>, x: Indicators)
    requires Built(ctx, candles, x)
    ensures |ctx.exitConfirmations| == |ExitFacts(candles, x)|
  {
    hide ExitHolds, EntryHolds;
    DistinctSize(ctx.exitConfirmations);
    if candles != [] {
      forall f: ExitFact ensures f in ctx.exitConfirmations <==> ExitHolds(f, candles, x) {
      }
    }
    assert ExitFacts(candles, x) == set f | f in ctx.exitConfirmations;
  }

  /** At the hard cut the position is sold whatever the model says. */
  lemma HardCutSells(ctx: MarketContext, output: Output, th: Thresholds)
    ensures ctx.hasOpenPosition && ctx.unrealizedPnlPct.Some? && ctx.unrealizedPnlPct.value <= -th.hardLossCut ==>
              ValidateSemantics(ctx, output, th).output == Output(SELL, 0.80)
    ensures output.action == HOLD
            && !(ctx.hasOpenPosition && ctx.unrealizedPnlPct.Some? && ctx.unrealizedPnlPct.value <= -th.hardLossCut) ==>
              ValidateSemantics(ctx, output, th).output == output
  {
  }

  // ----------------------------------------------------------------- entries

  /** Three different facts speak for an entry, one of trend and one of momentum among them. */
  ghost predicate EntryBacked(candles: seq<Candle>, x: Indicators) {
    candles != [] && exists f, g, h ::
      && f in {PriceAboveEmas, EmaFastAboveSlow} && g in {BullishMacd, RsiMid} && h != f && h != g
      && EntryHolds(f, candles, x) && EntryHolds(g, candles, x) && EntryHolds(h, candles, x)
  }

  lemma ThreeMembers<T>(xs: seq<T>, f: T, g: T, h: T)
    requires f in xs && g in xs && h in xs && f != g && g != h && f != h
    ensures |xs| >= 3
  {
    var i :| 0 <= i < |xs| && xs[i] == f;
    var j :| 0 <= j < |xs| && xs[j] == g;
    var k :| 0 <= k < |xs| && xs[k] == h;
  }

  lemma EntryBackedIff(ctx: MarketContext, candles: seq<Candle>, x: Indicators)
    requires Built(ctx, candles, x)
    ensures EntryIsSufficient(ctx.entryConfirmations) <==> EntryBacked(candles, x)
  {
    hide EntryIsSufficient, EntryBacked;
    if EntryIsSufficient(ctx.entryConfirmations) {
      SufficientIsBacked(ctx, candles, x);
    }
    if EntryBacked(candles, x) {
      BackedIsSufficient(ctx, candles, x);
    }
  }

  lemma SufficientIsBacked(ctx: MarketContext, candles: seq<Candle>, x: Indicators)
    requires Built(ctx, candles, x) && EntryIsSufficient(ctx.entryConfirmations)
    ensures EntryBacked(candles, x)
  {
    hide EntryHolds, ExitHolds, EntryIsSufficient, NoRepeats;
    var f, g, h := DifferentFacts(ctx.entryConfirmations);
    assert EntryHolds(f, candles, x) && EntryHolds(g, candles, x) && EntryHolds(h, candles, x);
  }

  lemma BackedIsSufficient(ctx: MarketContext, candles: seq<Candle>, x: Indicators)
    requires Built(ctx, candles, x) && EntryBacked(candles, x)
    ensures EntryIsSufficient(ctx.entryConfirmations)
  {
    hide EntryHolds, ExitHolds, NoRepeats;
    var f, g, h :|
      && f in {PriceAboveEmas, EmaFastAboveSlow} && g in {BullishMacd, RsiMid} && h != f && h != g
      && EntryHolds(f, candles, x) && EntryHolds(g, candles, x) && EntryHolds(h, candles, x);
    FactsSuffice(ctx.entryConfirmations, f, g, h);
  }

  lemma FactsSuffice(facts: seq<EntryFact>, f: EntryFact, g: EntryFact, h: EntryFact)
    requires f in facts && g in facts && h in facts
    requires f in {PriceAboveEmas, EmaFastAboveSlow} && g in {BullishMacd, RsiMid} && h != f && h != g
    ensures EntryIsSufficient(facts)
  {
    ThreeMembers(facts, f, g, h);
    var i :| 0 <= i < |facts| && facts[i] == f;
    var j :| 0 <= j < |facts| && facts[j] == g;
    assert EntryCategory(facts[i]) == Trend && EntryCategory(facts[j]) == Momentum;
  }

  /** A model's BUY is kept, with its confidence, exactly when no position is open, three different facts hold, one
      of trend and one of momentum among them, and the price has not already followed a wide gap. Otherwise, unless
      the hard cut sells, it becomes a HOLD of at most 0.64. */
  lemma BuyKeptIff(ctx: MarketContext, candles: seq<Candle>, x: Indicators, confidence: real, th: Thresholds)
    requires Built(ctx, candles, x)
    requires !(ctx.hasOpenPosition && ctx.unrealizedPnlPct.Some? && ctx.unrealizedPnlPct.value <= -th.hardLossCut)
    ensures ValidateSemantics(ctx, Output(BUY, confidence), th).output
            == if !ctx.hasOpenPosition && EntryBacked(candles, x) && !Chases(candles, x) then Output(BUY, confidence)
               else Output(HOLD, if confidence <= 0.64 then confidence else 0.64)
  {
    hide EntryHolds, ExitHolds, EntryIsSufficient, Ranked, WideGap, Bursts;
    EntryBackedIff(ctx, candles, x);
    if candles != [] {
      RegimeOfRequest(ctx, candles, x);
    }
  }
}
