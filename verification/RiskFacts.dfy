/** What the Risk Engine's formulas and gate order guarantee for every input. */
module RiskFacts {
  import opened Arithmetic
  import opened Common
  import opened Risk

  // ---------------------------------------------------------------- sizing

  /** Confidence never enlarges a position and never shrinks it below the configured floor. */
  lemma SizeScaleBounds(confidence: real, config: RiskConfig)
    requires config.minConfidenceSizeScale <= 1.0
    ensures config.minConfidenceSizeScale <= ConfidenceScale(confidence, config) <= 1.0
  {
    var range := 1.0 - config.minConfidence;
    if range > 0.0 {
      var scale := config.minConfidenceSizeScale;
      var ratio := Clamp(Over(confidence - config.minConfidence, range), 0.0, 1.0);
      TimesShrink(1.0 - scale, ratio);
    }
  }

  lemma ClampedSize(budget: real, cap: real, free: real, scale: real)
    ensures var size := PositionSize(budget, cap, free, scale);
            && (scale >= 0.0 ==> size >= 0.0)
            && (scale <= 1.0 ==> size <= Max(budget, 0.0) && size <= Max(cap, 0.0) && size <= Max(free, 0.0))
  {
    var clamped := Max(Min(Min(budget, cap), free), 0.0);
    TimesSign(clamped, scale);
    TimesRight(clamped, scale, 1.0);
    assert Times(clamped, 1.0) == clamped;
  }

  /** A scale that is not negative keeps the size so, and one of at most 1 keeps it within each clamp: the risk
      budget, the position cap and the balance. */
  lemma SizeWithinClamps(equity: real, free: real, price: real, atr: real, confidence: real, config: RiskConfig)
    requires ComputeSizing(equity, free, price, atr, confidence, config).Success?
    ensures var r := ComputeSizing(equity, free, price, atr, confidence, config).value;
            && r.stopDistancePct != 0.0
            && r.actualRisk == Times(r.positionSize, r.stopDistancePct)
            && (config.minConfidenceSizeScale >= 0.0 ==> r.positionSize >= 0.0)
            && (config.minConfidenceSizeScale <= 1.0 ==>
                  && r.positionSize <= Max(Over(r.nominalRisk, r.stopDistancePct), 0.0)
                  && r.positionSize <= Max(Times(equity, config.maxPositionPct), 0.0)
                  && r.positionSize <= Max(free, 0.0))
  {
    hide ConfidenceScale, StopDistance, PositionSize;
    var r := ComputeSizing(equity, free, price, atr, confidence, config).value;
    if config.minConfidenceSizeScale >= 0.0 {
      ScaleNonNegative(confidence, config);
    }
    if config.minConfidenceSizeScale <= 1.0 {
      SizeScaleBounds(confidence, config);
    }
    ClampedSize(Over(r.nominalRisk, r.stopDistancePct), Times(equity, config.maxPositionPct), free,
                ConfidenceScale(confidence, config));
  }

  /** A confidence whose scale is not negative is sized so. */
  lemma SizeNonNegative(equity: real, free: real, price: real, atr: real, confidence: real, config: RiskConfig)
    requires ConfidenceScale(confidence, config) >= 0.0
    requires ComputeSizing(equity, free, price, atr, confidence, config).Success?
    ensures ComputeSizing(equity, free, price, atr, confidence, config).value.positionSize >= 0.0
  {
    hide ConfidenceScale, StopDistance, PositionSize;
    var r := ComputeSizing(equity, free, price, atr, confidence, config).value;
    ClampedSize(Over(r.nominalRisk, r.stopDistancePct), Times(equity, config.maxPositionPct), free,
                ConfidenceScale(confidence, config));
  }

  /** A size is zero exactly when a clamp leaves nothing or the confidence scale is zero. */
  lemma ZeroSizeIff(budget: real, cap: real, free: real, scale: real)
    ensures PositionSize(budget, cap, free, scale) == 0.0 <==>
              budget <= 0.0 || cap <= 0.0 || free <= 0.0 || scale == 0.0
  {
    var clamped := Max(Min(Min(budget, cap), free), 0.0);
    TimesSign(clamped, scale);
    TimesSign(clamped, -scale);
    assert Times(clamped, -scale) == -Times(clamped, scale);
  }

  /** A size is negative exactly when the clamps leave something and the confidence scale is negative. */
  lemma NegativeSizeIff(budget: real, cap: real, free: real, scale: real)
    ensures PositionSize(budget, cap, free, scale) < 0.0 <==>
              budget > 0.0 && cap > 0.0 && free > 0.0 && scale < 0.0
  {
    var clamped := Max(Min(Min(budget, cap), free), 0.0);
    TimesSign(clamped, scale);
    TimesSign(clamped, -scale);
    assert Times(clamped, -scale) == -Times(clamped, scale);
  }

  lemma ScaleNonNegative(confidence: real, config: RiskConfig)
    requires config.minConfidenceSizeScale >= 0.0
    ensures ConfidenceScale(confidence, config) >= 0.0
  {
    var range := 1.0 - config.minConfidence;
    if range > 0.0 {
      var scale := config.minConfidenceSizeScale;
      var ratio := Clamp(Over(confidence - config.minConfidence, range), 0.0, 1.0);
      TimesSign(scale, 1.0 - ratio);
      assert scale * (1.0 - ratio) == scale - scale * ratio;
      assert (1.0 - scale) * ratio == ratio - scale * ratio;
    }
  }

  /** A size stays within the risk budget exactly when the budget is not negative and the confidence scale
      does not enlarge past it what the clamps leave. */
  lemma SizeWithinBudgetIff(budget: real, cap: real, free: real, scale: real)
    ensures PositionSize(budget, cap, free, scale) <= budget <==>
              budget >= 0.0 && (scale <= 1.0 || budget == 0.0 || cap <= 0.0 || free <= 0.0
                                || Times(Min(cap, free), scale) <= budget)
  {
    var clamped := Max(Min(Min(budget, cap), free), 0.0);
    TimesRight(clamped, scale, 1.0);
    TimesRight(clamped, 1.0, scale);
    assert Times(clamped, 1.0) == clamped && Times(0.0, scale) == 0.0;
    TimesMonotone(budget, Min(cap, free), Max(scale, 0.0));
  }

  /** The balance gate rejects what sizing produced exactly when the scale enlarges past the balance what the
      risk budget and the position cap leave, so never for a scale that only shrinks. */
  lemma BalanceGateSilentIff(signal: SignalView, account: AccountState, config: RiskConfig, now: Time,
                             kill: bool, dup: bool, expectancy: ExpectancyView)
    requires account.freeBalance >= 0.0
    requires Context(signal, account, config, now, kill, dup, expectancy).Success?
    ensures var ctx := Context(signal, account, config, now, kill, dup, expectancy).value;
            var r, free, cap := ctx.candidate, account.freeBalance, Times(account.equity, config.maxPositionPct);
            && r.stopDistancePct != 0.0
            && var budget := Over(r.nominalRisk, r.stopDistancePct);
               var scale := ConfidenceScale(signal.confidence, config);
               Balance(ctx).None? <==>
                 scale <= 1.0 || free == 0.0 || budget <= 0.0 || cap <= 0.0 || Times(Min(cap, budget), scale) <= free
    ensures config.minConfidenceSizeScale <= 1.0 ==>
              Balance(Context(signal, account, config, now, kill, dup, expectancy).value).None?
  {
    hide ConfidenceScale, StopDistance;
    var r := Context(signal, account, config, now, kill, dup, expectancy).value.candidate;
    SizeWithinBudgetIff(account.freeBalance, Times(account.equity, config.maxPositionPct),
                        Over(r.nominalRisk, r.stopDistancePct), ConfidenceScale(signal.confidence, config));
    if config.minConfidenceSizeScale <= 1.0 {
      SizeScaleBounds(signal.confidence, config);
    }
  }

  /** And reaches a budget exactly when that is not positive or the scale enlarges what the clamps leave. */
  lemma SizeReachesBudgetIff(budget: real, cap: real, free: real, scale: real)
    ensures PositionSize(budget, cap, free, scale) >= budget <==>
              budget <= 0.0 || (cap > 0.0 && free > 0.0 && scale >= 1.0 && Times(Min(cap, free), scale) >= budget)
  {
    var clamped := Max(Min(Min(budget, cap), free), 0.0);
    TimesRight(clamped, scale, 1.0);
    TimesRight(clamped, 1.0, scale);
    assert Times(clamped, 1.0) == clamped && Times(0.0, scale) == 0.0;
    TimesMonotone(clamped, Min(cap, free), Max(scale, 0.0));
  }

  /** The sizing comment says actual risk never exceeds the nominal budget. With a positive stop distance that
      holds exactly when the budget is not negative and the confidence scale does not enlarge the size past it;
      with a negative one, when the budget is not negative or the scale enlarges the size up to it. */
  lemma ActualRiskWithinNominalIff(equity: real, free: real, price: real, atr: real, confidence: real,
                                   config: RiskConfig)
    requires ComputeSizing(equity, free, price, atr, confidence, config).Success?
    ensures var r := ComputeSizing(equity, free, price, atr, confidence, config).value;
            var cap, scale := Times(equity, config.maxPositionPct), ConfidenceScale(confidence, config);
            && r.stopDistancePct != 0.0
            && var budget := Over(r.nominalRisk, r.stopDistancePct);
               r.actualRisk <= r.nominalRisk <==>
                 if r.stopDistancePct > 0.0
                 then r.nominalRisk >= 0.0 && (scale <= 1.0 || r.nominalRisk == 0.0 || cap <= 0.0 || free <= 0.0
                                               || Times(Min(cap, free), scale) <= budget)
                 else r.nominalRisk >= 0.0 || (cap > 0.0 && free > 0.0 && scale >= 1.0
                                               && Times(Min(cap, free), scale) >= budget)
  {
    hide ConfidenceScale, StopDistance, PositionSize;
    var r := ComputeSizing(equity, free, price, atr, confidence, config).value;
    var cap, scale := Times(equity, config.maxPositionPct), ConfidenceScale(confidence, config);
    var budget := Over(r.nominalRisk, r.stopDistancePct);
    SizeWithinBudgetIff(budget, cap, free, scale);
    SizeReachesBudgetIff(budget, cap, free, scale);
    RiskIsDistanceTimesSize(r.positionSize, r.nominalRisk, r.stopDistancePct);
  }

  lemma RiskIsDistanceTimesSize(size: real, nominal: real, distance: real)
    requires distance != 0.0
    ensures distance > 0.0 ==> (Times(size, distance) <= nominal <==> size <= Over(nominal, distance))
    ensures distance < 0.0 ==> (Times(size, distance) <= nominal <==> size >= Over(nominal, distance))
    ensures Over(nominal, distance) == 0.0 <==> nominal == 0.0
    ensures distance > 0.0 ==> (Over(nominal, distance) >= 0.0 <==> nominal >= 0.0)
    ensures distance < 0.0 ==> (Over(nominal, distance) <= 0.0 <==> nominal >= 0.0)
  {
    if distance > 0.0 {
      OverAtLeast(nominal, distance, size);
      OverSign(nominal, distance);
    } else {
      OverAtLeast(nominal, -distance, -size);
      OverSign(nominal, -distance);
      OverNegated(nominal, distance);
      assert Times(-size, -distance) == Times(size, distance);
    }
  }

  lemma OverNegated(a: real, b: real)
    requires b != 0.0
    ensures Over(a, -b) == -Over(a, b)
  {
    OverTimes(a, b);
    assert Times(-Over(a, b), -b) == a;
    OverTimes(-Over(a, b), -b);
  }

  /** So for a scale that only shrinks it holds exactly when the budget is not negative. */
  lemma ShrunkRiskWithinNominalIff(equity: real, free: real, price: real, atr: real, confidence: real,
                                   config: RiskConfig)
    requires config.minConfidenceSizeScale <= 1.0
    requires ComputeSizing(equity, free, price, atr, confidence, config).Success?
    requires ComputeSizing(equity, free, price, atr, confidence, config).value.stopDistancePct > 0.0
    ensures var r := ComputeSizing(equity, free, price, atr, confidence, config).value;
            r.actualRisk <= r.nominalRisk <==> Times(equity, config.riskPerTradePct) >= 0.0
  {
    hide ConfidenceScale;
    ActualRiskWithinNominalIff(equity, free, price, atr, confidence, config);
    SizeScaleBounds(confidence, config);
  }

  /** A configured scale of 2 at the minimum confidence doubles the risk of a positive budget. */
  lemma EnlargedRiskExceedsNominal()
    ensures var config := RiskConfig(0.01, 1.0, 1.0, 2, 0.03, 3, 120, 0.5, 2.0, 65, 1.0, 0.01, 0.08, false, 0, 0.0);
            var r := ComputeSizing(1000.0, 1000.0, 100.0, 8.0, 0.5, config);
            r.Success? && r.value.nominalRisk == 10.0 && r.value.actualRisk == 20.0
  {
    assert Over(8.0, 100.0) == 0.08 && Times(0.08, 1.0) == 0.08;
    assert Times(1000.0, 0.01) == 10.0 && Over(10.0, 0.08) == 125.0 && Times(1000.0, 1.0) == 1000.0;
    assert Over(0.0, 0.5) == 0.0 && Times(-1.0, 0.0) == 0.0;
    assert Times(125.0, 2.0) == 250.0 && Times(250.0, 0.08) == 20.0;
  }

  /** The attached stop lies strictly between zero and the entry price exactly when the
      clamped stop distance is a proper fraction, which sane bounds guarantee. */
  lemma StopBelowEntryIff(equity: real, free: real, price: real, atr: real, confidence: real, config: RiskConfig)
    requires price > 0.0
    requires ComputeSizing(equity, free, price, atr, confidence, config).Success?
    ensures var r := ComputeSizing(equity, free, price, atr, confidence, config).value;
            && (0.0 < r.stopLossPrice < price <==> 0.0 < r.stopDistancePct < 1.0)
            && (0.0 < config.minStopLossPct <= config.maxStopLossPct < 1.0 ==>
                  config.minStopLossPct <= r.stopDistancePct <= config.maxStopLossPct)
  {
    var d := ComputeSizing(equity, free, price, atr, confidence, config).value.stopDistancePct;
    TimesRight(price, 0.0, 1.0 - d);
    TimesRight(price, 1.0 - d, 1.0);
    TimesRight(price, 1.0 - d, 0.0);
    TimesRight(price, 1.0, 1.0 - d);
    assert Times(price, 1.0) == price && Times(price, 0.0) == 0.0;
  }

  /** Between its bounds the stop distance is `multiplier` ATRs of the price; otherwise it is the bound passed. */
  lemma DistanceFollowsAtr(price: real, atr: real, config: RiskConfig)
    requires price > 0.0 && config.minStopLossPct <= config.maxStopLossPct
    ensures var d, reach := StopDistance(price, atr, config), Times(atr, config.atrStopMultiplier);
            && config.minStopLossPct <= d <= config.maxStopLossPct
            && (config.minStopLossPct < d < config.maxStopLossPct ==> Times(d, price) == reach)
            && (d == config.minStopLossPct || reach >= Times(d, price))
            && (d == config.maxStopLossPct || reach <= Times(d, price))
  {
    var d, reach := StopDistance(price, atr, config), Times(atr, config.atrStopMultiplier);
    var raw := Times(Over(atr, price), config.atrStopMultiplier);
    OverTimes(atr, price);
    assert Times(raw, price) == Times(Times(Over(atr, price), price), config.atrStopMultiplier);
    TimesMonotone(raw, d, price);
    TimesMonotone(d, raw, price);
  }

  /** Between the minimum confidence and full confidence the scale grows linearly from the configured floor to 1;
      outside it stays at the nearer end. */
  lemma ScaleIsLinear(confidence: real, config: RiskConfig)
    requires config.minConfidence < 1.0
    ensures var scale, floor, low := ConfidenceScale(confidence, config), config.minConfidenceSizeScale, config.minConfidence;
            && (confidence <= low ==> scale == floor)
            && (confidence >= 1.0 ==> scale == 1.0)
            && (low <= confidence <= 1.0 ==> Times(scale - floor, 1.0 - low) == Times(1.0 - floor, confidence - low))
  {
    var floor, low := config.minConfidenceSizeScale, config.minConfidence;
    var range := 1.0 - low;
    var ratio := Over(confidence - low, range);
    OverAtLeast(confidence - low, range, 0.0);
    OverAtLeast(confidence - low, range, 1.0);
    OverTimes(confidence - low, range);
    TimesEnds(range);
    TimesEnds(1.0 - floor);
    assert Times(Times(1.0 - floor, ratio), range) == Times(1.0 - floor, Times(ratio, range));
  }

  lemma TimesEnds(x: real)
    ensures Times(0.0, x) == 0.0 && Times(1.0, x) == x && Times(x, 0.0) == 0.0 && Times(x, 1.0) == x
  {
  }

  /** The size is the scale times the tightest of the risk budget, the position cap and the balance, or nothing
      when one of them is not positive; the base amount is what that buys at the price. */
  lemma SizeIsTightest(equity: real, free: real, price: real, atr: real, confidence: real, config: RiskConfig)
    requires ComputeSizing(equity, free, price, atr, confidence, config).Success?
    ensures var r := ComputeSizing(equity, free, price, atr, confidence, config).value;
            var cap, scale := Times(equity, config.maxPositionPct), ConfidenceScale(confidence, config);
            && r.stopDistancePct != 0.0
            && var budget := Over(Times(equity, config.riskPerTradePct), r.stopDistancePct);
               exists tightest ::
                 && r.positionSize == Times(tightest, scale) && tightest in {budget, cap, free, 0.0}
                 && (if budget > 0.0 && cap > 0.0 && free > 0.0
                     then 0.0 < tightest <= budget && tightest <= cap && tightest <= free else tightest == 0.0)
    ensures var r := ComputeSizing(equity, free, price, atr, confidence, config).value;
            && r.nominalRisk == Times(equity, r.riskPctApplied) && r.riskPctApplied == config.riskPerTradePct
            && (if price > 0.0 then Times(r.positionSizeBase, price) == r.positionSize else r.positionSizeBase == 0.0)
  {
    hide ConfidenceScale, StopDistance, Times, Over;
    var r := ComputeSizing(equity, free, price, atr, confidence, config).value;
    var cap := Times(equity, config.maxPositionPct);
    var budget := Over(Times(equity, config.riskPerTradePct), r.stopDistancePct);
    var tightest := Max(Min(Min(budget, cap), free), 0.0);
    assert r.positionSize == Times(tightest, ConfidenceScale(confidence, config));
    assert tightest in {budget, cap, free, 0.0};
    if price > 0.0 {
      OverTimes(r.positionSize, price);
    }
  }

  // ------------------------------------------------------------ gate order

  lemma {:induction false} NoViolationIff(rules: seq<Rule>, ctx: RuleContext)
    ensures FirstViolation(rules, ctx).None? <==> forall rule :: rule in rules ==> rule(ctx).None?
  {
    if rules != [] {
      NoViolationIff(rules[1..], ctx);
      assert rules == [rules[0]] + rules[1..];
    }
  }

  /** Reordering the gates can change the reported reason but never the approval. */
  lemma ApprovalIgnoresGateOrder(rules: seq<Rule>, ctx: RuleContext)
    requires multiset(rules) == multiset(RULES_IN_ORDER)
    ensures Decide(rules, ctx).approved == Decide(RULES_IN_ORDER, ctx).approved
    ensures Decide(rules, ctx).approved ==> Decide(rules, ctx) == Decide(RULES_IN_ORDER, ctx)
  {
    NoViolationIff(rules, ctx);
    NoViolationIff(RULES_IN_ORDER, ctx);
    forall rule ensures rule in rules <==> rule in RULES_IN_ORDER {
      assert rule in multiset(rules) <==> rule in multiset(RULES_IN_ORDER);
    }
  }

  /** Everything an entry must satisfy, in the portfolio's own terms. */
  predicate Admissible(ctx: RuleContext) {
    var a, c, s := ctx.account, ctx.config, ctx.signal;
    && !ctx.killswitchEnabled
    && !ctx.isDuplicate
    && s.action != HOLD
    && ctx.now - s.candleTs <= c.signalMaxAgeMinutes * MINUTE
    && s.confidence >= c.minConfidence
    && !(c.expectancyFilterEnabled && Verdict(ctx) == NegativeExpectancy)
    && s.symbol !in a.openSymbols
    && |a.openSymbols + {s.symbol}| <= c.maxOpenPositions
    && a.totalExposure + ctx.candidate.positionSize <= Times(c.maxTotalExposurePct, a.equity)
    && a.dailyPnlPct > -c.maxDailyLossPct
    && a.consecutiveLosses < c.consecutiveLossLimit
    && (s.symbol in a.symbolLastClosedAt ==>
          ctx.now >= a.symbolLastClosedAt[s.symbol] + c.cooldownMinutes * MINUTE)
    && ctx.candidate.positionSize <= a.freeBalance
  }

  lemma PassesAll(ctx: RuleContext)
    ensures (forall rule :: rule in RULES_IN_ORDER ==> rule(ctx).None?) <==>
              (KillSwitch(ctx).None? && DuplicateSignal(ctx).None? && SignalAction(ctx).None? &&
               SignalStaleness(ctx).None? && MinConfidence(ctx).None? && ExpectancyFilter(ctx).None? &&
               MaxOpenPositions(ctx).None? && MaxTotalExposure(ctx).None? && MaxDailyLoss(ctx).None? &&
               ConsecutiveLosses(ctx).None? && Cooldown(ctx).None? && Balance(ctx).None?)
  {
    var r := RULES_IN_ORDER;
    assert r[0] in r && r[1] in r && r[2] in r && r[3] in r && r[4] in r && r[5] in r;
    assert r[6] in r && r[7] in r && r[8] in r && r[9] in r && r[10] in r && r[11] in r;
  }

  /** An entry is approved exactly when it is admissible. */
  lemma ApprovedIffAdmissible(ctx: RuleContext)
    ensures Decide(RULES_IN_ORDER, ctx).approved <==> Admissible(ctx)
  {
    NoViolationIff(RULES_IN_ORDER, ctx);
    PassesAll(ctx);
    var open := ctx.account.openSymbols;
    if ctx.signal.symbol !in open {
      assert |open + {ctx.signal.symbol}| == |open| + 1;
    }
  }

  lemma EvaluateApprovedIff(signal: SignalView, account: AccountState, config: RiskConfig, now: Time,
                            kill: bool, dup: bool, expectancy: ExpectancyView)
    requires Evaluate(signal, account, config, now, kill, dup, expectancy).Success?
    ensures var d := Evaluate(signal, account, config, now, kill, dup, expectancy).value;
            var ctx := Context(signal, account, config, now, kill, dup, expectancy).value;
            && (d.approved <==> Admissible(ctx))
            && (d.approved ==> d.sizing == Some(ctx.candidate))
  {
    ApprovedIffAdmissible(Context(signal, account, config, now, kill, dup, expectancy).value);
  }

  lemma SizingIgnoresFilter(equity: real, free: real, price: real, atr: real, confidence: real, config: RiskConfig)
    ensures ComputeSizing(equity, free, price, atr, confidence, config)
            == ComputeSizing(equity, free, price, atr, confidence, config.(expectancyFilterEnabled := true))
  {
    var on := config.(expectancyFilterEnabled := true);
    assert ConfidenceScale(confidence, config) == ConfidenceScale(confidence, on);
    assert price != 0.0 ==> StopDistance(price, atr, config) == StopDistance(price, atr, on);
  }

  /** Turning the expectancy filter on only ever removes approvals, and removes exactly the
      ones whose shadow verdict was already negative; what stays approved is unchanged. */
  lemma FilterOnlyTightens(signal: SignalView, account: AccountState, config: RiskConfig, now: Time,
                           kill: bool, dup: bool, expectancy: ExpectancyView)
    requires !config.expectancyFilterEnabled
    ensures var off := Evaluate(signal, account, config, now, kill, dup, expectancy);
            var on := Evaluate(signal, account, config.(expectancyFilterEnabled := true), now, kill, dup, expectancy);
            && off.Success? == on.Success?
            && (on.Success? ==>
                  && (on.value.approved <==> off.value.approved && off.value.verdict != NegativeExpectancy)
                  && (on.value.approved ==> on.value.sizing == off.value.sizing)
                  && on.value.verdict == off.value.verdict)
  {
    var onConfig := config.(expectancyFilterEnabled := true);
    var off := Context(signal, account, config, now, kill, dup, expectancy);
    var on := Context(signal, account, onConfig, now, kill, dup, expectancy);
    SizingIgnoresFilter(account.equity, account.freeBalance, signal.price, signal.atr14, signal.confidence, config);
    if on.Success? {
      ApprovedIffAdmissible(off.value);
      ApprovedIffAdmissible(on.value);
    }
  }

  /** A tripped switch rejects everything, is reported first, and is never re-tripped; and a trip
      always comes with one of the two circuit-breaker reasons. */
  lemma KillSwitchDominates(signal: SignalView, account: AccountState, config: RiskConfig, now: Time,
                            kill: bool, dup: bool, expectancy: ExpectancyView)
    requires Evaluate(signal, account, config, now, kill, dup, expectancy).Success?
    ensures var d := Evaluate(signal, account, config, now, kill, dup, expectancy).value;
            && (kill ==> d.rejectionReason == Some(KillswitchActive) && !d.autoTripKillswitch)
            && (d.autoTripKillswitch ==> d.rejectionReason in {Some(DailyLossLimitHit), Some(ConsecutiveLossPause)})
            && (dup ==> !d.approved)
  {
    var ctx := Context(signal, account, config, now, kill, dup, expectancy).value;
    TripReason(RULES_IN_ORDER, ctx);
    EvaluateApprovedIff(signal, account, config, now, kill, dup, expectancy);
  }

  lemma {:induction false} TripReason(rules: seq<Rule>, ctx: RuleContext)
    requires forall rule :: rule in rules ==> rule in RULES_IN_ORDER
    ensures FirstViolation(rules, ctx).Some? && FirstViolation(rules, ctx).value.autoTripKillswitch ==>
              FirstViolation(rules, ctx).value.reason in {DailyLossLimitHit, ConsecutiveLossPause}
  {
    if rules != [] {
      assert rules[0] in rules;
      if rules[0](ctx).None? {
        TripReason(rules[1..], ctx);
      }
    }
  }

  /** The confidence attached to a HOLD never reaches the decision: the action gate comes before
      every gate that reads confidence or the size derived from it. */
  lemma HoldIgnoresConfidence(signal: SignalView, account: AccountState, config: RiskConfig, now: Time,
                              kill: bool, dup: bool, expectancy: ExpectancyView, confidence: real)
    requires signal.action == HOLD
    ensures Evaluate(signal, account, config, now, kill, dup, expectancy)
            == Evaluate(signal.(confidence := confidence), account, config, now, kill, dup, expectancy)
    ensures Evaluate(signal, account, config, now, kill, dup, expectancy).Success? ==>
              !Evaluate(signal, account, config, now, kill, dup, expectancy).value.approved
  {
    var a := Context(signal, account, config, now, kill, dup, expectancy);
    var b := Context(signal.(confidence := confidence), account, config, now, kill, dup, expectancy);
    if a.Success? {
      var r := RULES_IN_ORDER;
      ThirdGate(r, a.value);
      ThirdGate(r, b.value);
    }
  }

  lemma ThirdGate(rules: seq<Rule>, ctx: RuleContext)
    requires |rules| >= 3 && rules[2](ctx).Some?
    ensures FirstViolation(rules, ctx) ==
            if rules[0](ctx).Some? then rules[0](ctx)
            else if rules[1](ctx).Some? then rules[1](ctx)
            else rules[2](ctx)
  {
    assert FirstViolation(rules, ctx) == if rules[0](ctx).Some? then rules[0](ctx) else FirstViolation(rules[1..], ctx);
    assert rules[1..][1..][0] == rules[2];
  }

  // --------------------------------------------------------------- reasons

  /** The reasons an entry can be refused for, first to be reported first. */
  const REASONS_IN_ORDER: seq<RejectionReason> := [
    KillswitchActive, DuplicateDecision, SignalWasHold, StaleSignal, LowConfidence, NegativeExpectancySetup,
    MaxPositionsReached, MaxExposureReached, DailyLossLimitHit, ConsecutiveLossPause, CooldownActive,
    InsufficientBalance]

  /** When each reason applies to an entry, in the portfolio's own terms. */
  predicate Blocks(reason: RejectionReason, ctx: RuleContext) {
    var a, c, s := ctx.account, ctx.config, ctx.signal;
    match reason
    case KillswitchActive => ctx.killswitchEnabled
    case DuplicateDecision => ctx.isDuplicate
    case SignalWasHold => s.action == HOLD
    case StaleSignal => ctx.now > s.candleTs + c.signalMaxAgeMinutes * 60_000_000
    case LowConfidence => s.confidence < c.minConfidence
    case NegativeExpectancySetup => c.expectancyFilterEnabled && ProvenLoser(ctx.expectancy, c)
    case MaxPositionsReached => s.symbol in a.openSymbols || |a.openSymbols| >= c.maxOpenPositions
    case MaxExposureReached => a.totalExposure + ctx.candidate.positionSize > Times(c.maxTotalExposurePct, a.equity)
    case DailyLossLimitHit => a.dailyPnlPct <= -c.maxDailyLossPct
    case ConsecutiveLossPause => a.consecutiveLosses >= c.consecutiveLossLimit
    case CooldownActive =>
      s.symbol in a.symbolLastClosedAt && ctx.now < a.symbolLastClosedAt[s.symbol] + c.cooldownMinutes * 60_000_000
    case InsufficientBalance => ctx.candidate.positionSize > a.freeBalance
    case NoPositionToExit => false
  }

  predicate EnoughSamples(expectancy: ExpectancyView, config: RiskConfig) {
    expectancy.expectancyR.Some? && expectancy.sampleSize >= config.expectancyMinSampleSize
  }

  predicate ProvenLoser(expectancy: ExpectancyView, config: RiskConfig) {
    EnoughSamples(expectancy, config) && expectancy.expectancyR.value < config.expectancyMinR
  }

  lemma GateBlocks(ctx: RuleContext, k: nat)
    requires k < 12
    ensures |RULES_IN_ORDER| == |REASONS_IN_ORDER| == 12
    ensures var reason := REASONS_IN_ORDER[k];
            RULES_IN_ORDER[k](ctx) == if Blocks(reason, ctx)
                                      then Some(RuleViolation(reason, reason in {DailyLossLimitHit, ConsecutiveLossPause}))
                                      else None
  {
  }

  lemma {:induction false} FirstIs(rules: seq<Rule>, ctx: RuleContext, k: nat)
    requires k < |rules| && rules[k](ctx).Some? && forall j :: 0 <= j < k ==> rules[j](ctx).None?
    ensures FirstViolation(rules, ctx) == rules[k](ctx)
  {
    if k > 0 {
      assert rules[0](ctx).None?;
      forall j | 0 <= j < k - 1 ensures rules[1..][j](ctx).None? {
        assert rules[j + 1](ctx).None?;
      }
      FirstIs(rules[1..], ctx, k - 1);
    }
  }

  /** The first reason that applies. */
  ghost predicate FirstBlock(ctx: RuleContext, k: nat)
    requires k < 12
  {
    Blocks(REASONS_IN_ORDER[k], ctx) && forall j :: 0 <= j < k ==> !Blocks(REASONS_IN_ORDER[j], ctx)
  }

  lemma FirstBlockReported(ctx: RuleContext, k: nat)
    requires k < 12 && FirstBlock(ctx, k)
    ensures FirstViolation(RULES_IN_ORDER, ctx)
            == Some(RuleViolation(REASONS_IN_ORDER[k], REASONS_IN_ORDER[k] in {DailyLossLimitHit, ConsecutiveLossPause}))
  {
    hide Blocks;
    forall j | 0 <= j <= k ensures RULES_IN_ORDER[j](ctx).Some? <==> Blocks(REASONS_IN_ORDER[j], ctx) {
      GateBlocks(ctx, j);
    }
    GateBlocks(ctx, k);
    FirstIs(RULES_IN_ORDER, ctx, k);
  }

  lemma NoBlockPasses(ctx: RuleContext)
    requires forall k :: 0 <= k < 12 ==> !Blocks(REASONS_IN_ORDER[k], ctx)
    ensures FirstViolation(RULES_IN_ORDER, ctx).None?
  {
    hide Blocks;
    forall k | 0 <= k < 12 ensures RULES_IN_ORDER[k](ctx).None? {
      GateBlocks(ctx, k);
    }
    GateBlocks(ctx, 0);
    NoViolationIff(RULES_IN_ORDER, ctx);
  }

  lemma SomeFirstBlock(ctx: RuleContext) returns (first: Option<nat>)
    ensures first.None? ==> forall k :: 0 <= k < 12 ==> !Blocks(REASONS_IN_ORDER[k], ctx)
    ensures first.Some? ==> first.value < 12 && FirstBlock(ctx, first.value)
  {
    hide Blocks;
    first := None;
    var k := 0;
    while k < 12 && !Blocks(REASONS_IN_ORDER[k], ctx)
      invariant k <= 12 && forall j :: 0 <= j < k ==> !Blocks(REASONS_IN_ORDER[j], ctx)
    {
      k := k + 1;
    }
    if k < 12 {
      first := Some(k);
    }
  }

  /** Each reason is the reported one exactly when it applies and no reason before it does; the switch trips
      exactly when one of the two loss limits is hit and nothing before them applies; and the expectancy verdict
      is reported whatever the decision. */
  lemma ReasonReportedIff(signal: SignalView, account: AccountState, config: RiskConfig, now: Time,
                          kill: bool, dup: bool, expectancy: ExpectancyView)
    requires Evaluate(signal, account, config, now, kill, dup, expectancy).Success?
    ensures var d := Evaluate(signal, account, config, now, kill, dup, expectancy).value;
            var ctx := Context(signal, account, config, now, kill, dup, expectancy).value;
            && (forall k :: 0 <= k < 12 ==> (d.rejectionReason == Some(REASONS_IN_ORDER[k]) <==> FirstBlock(ctx, k)))
            && (d.approved <==> forall k :: 0 <= k < 12 ==> !Blocks(REASONS_IN_ORDER[k], ctx))
            && (d.approved <==> d.rejectionReason == None) && (d.approved <==> d.sizing.Some?)
            && (d.autoTripKillswitch <==>
                  (Blocks(DailyLossLimitHit, ctx) || Blocks(ConsecutiveLossPause, ctx))
                  && forall k :: 0 <= k < 8 ==> !Blocks(REASONS_IN_ORDER[k], ctx))
    ensures var d := Evaluate(signal, account, config, now, kill, dup, expectancy).value;
            && (d.verdict == InsufficientData <==> !EnoughSamples(expectancy, config))
            && (d.verdict == NegativeExpectancy <==> ProvenLoser(expectancy, config))
            && d.enforced == config.expectancyFilterEnabled
  {
    hide Blocks;
    var ctx := Context(signal, account, config, now, kill, dup, expectancy).value;
    var first := SomeFirstBlock(ctx);
    if first.None? {
      NoBlockPasses(ctx);
    } else {
      FirstBlockReported(ctx, first.value);
    }
    assert REASONS_IN_ORDER[8] == DailyLossLimitHit && REASONS_IN_ORDER[9] == ConsecutiveLossPause;
    DifferentReasons();
  }

  lemma DifferentReasons()
    ensures forall j, k :: 0 <= j < k < 12 ==> REASONS_IN_ORDER[j] != REASONS_IN_ORDER[k]
  {
  }

  /** An exit is approved exactly for a first, fresh decision on a held symbol, and refused for the first of the
      three that fails. */
  lemma ExitApprovedIff(signal: SignalView, account: AccountState, config: RiskConfig, now: Time, dup: bool)
    ensures var d := EvaluateExit(signal, account, config, now, dup);
            var stale := now > signal.candleTs + config.signalMaxAgeMinutes * 60_000_000;
            && (d.approved <==> !dup && !stale && signal.symbol in account.openSymbols)
            && (d.approved <==> d.rejectionReason == None)
            && (d.rejectionReason == Some(DuplicateDecision) <==> dup)
            && (d.rejectionReason == Some(StaleSignal) <==> !dup && stale)
            && (d.rejectionReason == Some(NoPositionToExit) <==> !dup && !stale && signal.symbol !in account.openSymbols)
  {
  }
}
