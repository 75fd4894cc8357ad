/** One analysis call end to end: pre-filter, model call, bounded repair, semantic validation. */
module Pipeline {
  import opened Common
  import opened Semantic
  import Risk
  import RiskFacts

  /** A model call either fails outright or yields text. */
  datatype LlmResponse = CallFailed(reason: string) | Answer(text: string)

  /** The structural parser: a typed output, or the reason the text is unusable. */
  datatype Parsed = Parsed(output: Output) | Malformed(reason: string)

  type Parser = string -> Parsed

  /** A repair call: its number, the bad text and the reason; None when the call produced nothing. */
  type Repair = (nat, string, string) -> Option<string>

  /** Any provider behaviour: the answer to each numbered call, given the text to repair, if any. */
  type Provider = (nat, Option<(string, string)>) -> LlmResponse

  datatype ValidationResult =
    | Rejected(reason: string, finalText: string, repairAttempted: bool)
    | Accepted(output: Output, originalAction: Risk.Action, actionChanged: bool, finalText: string,
               repairAttempted: bool)

  // ---------------------------------------------------------------- repair

  /** The text reached after `k` repairs, if every earlier text failed to parse and every repair
      produced something. */
  function TextAfter(parse: Parser, repair: Repair, text: string, k: nat): Option<string> {
    if k == 0 then Some(text) else
      var earlier := TextAfter(parse, repair, text, k - 1);
      if earlier.None? || parse(earlier.value).Parsed? then None
      else repair(k - 1, earlier.value, parse(earlier.value).reason)
  }

  /** `validate`: parse, repairing at most `maxRepairs` times, then the semantic rubric. A response is
      accepted exactly when one of the texts within the repair budget parses. */
  method Validate(parse: Parser, repair: Repair, rawText: string, ctx: MarketContext, th: Thresholds, maxRepairs: int)
    returns (result: ValidationResult)
    ensures result.Accepted? <==>
              exists k: nat :: Parses(parse, repair, rawText, k) && InBudget(k, maxRepairs)
    ensures result.Accepted? ==>
              && parse(result.finalText).Parsed?
              && var v := ValidateSemantics(ctx, parse(result.finalText).output, th);
                 && result.output == v.output && result.actionChanged == v.actionChanged
                 && result.originalAction == parse(result.finalText).output.action
    ensures result.Rejected? ==> parse(result.finalText).Malformed? && result.reason == parse(result.finalText).reason
    ensures !result.repairAttempted ==> result.finalText == rawText
    ensures Validation(parse, repair, rawText, 0, ctx, th, maxRepairs)
            == if result.Accepted? then Some(result.output) else None
  {
    var attemptText := rawText;
    var attemptsUsed: nat := 0;
    var repairAttempted := false;
    while parse(attemptText).Malformed?
      invariant TextAfter(parse, repair, rawText, attemptsUsed) == Some(attemptText)
      invariant attemptsUsed == 0 || attemptsUsed <= maxRepairs
      invariant repairAttempted <==> attemptsUsed > 0
      invariant !repairAttempted ==> attemptText == rawText
      invariant Validation(parse, repair, attemptText, attemptsUsed, ctx, th, maxRepairs)
             == Validation(parse, repair, rawText, 0, ctx, th, maxRepairs)
      invariant forall k: nat :: k < attemptsUsed ==> !Parses(parse, repair, rawText, k)
      decreases maxRepairs - attemptsUsed
    {
      var reason := parse(attemptText).reason;
      if attemptsUsed >= maxRepairs {
        NothingParsesLater(parse, repair, rawText, attemptsUsed, maxRepairs);
        return Rejected(reason, attemptText, repairAttempted);
      }
      var repaired := repair(attemptsUsed, attemptText, reason);
      attemptsUsed := attemptsUsed + 1;
      repairAttempted := true;
      if repaired.None? {
        forall k: nat | k >= attemptsUsed ensures TextAfter(parse, repair, rawText, k).None? {
          NothingAfterNone(parse, repair, rawText, attemptsUsed, k);
        }
        return Rejected(reason, attemptText, true);
      }
      attemptText := repaired.value;
    }
    assert Parses(parse, repair, rawText, attemptsUsed);
    var output := parse(attemptText).output;
    var semantic := ValidateSemantics(ctx, output, th);
    result := Accepted(semantic.output, output.action, semantic.actionChanged, attemptText, repairAttempted);
  }

  predicate Parses(parse: Parser, repair: Repair, text: string, k: nat) {
    var t := TextAfter(parse, repair, text, k);
    t.Some? && parse(t.value).Parsed?
  }

  predicate InBudget(k: nat, maxRepairs: int) {
    k == 0 || k <= maxRepairs
  }

  /** What the parser makes of the text reached after `k` repairs. */
  function OutputAt(parse: Parser, repair: Repair, text: string, k: nat): Output
    requires Parses(parse, repair, text, k)
  {
    parse(TextAfter(parse, repair, text, k).value).output
  }

  lemma {:induction false} NothingAfterNone(parse: Parser, repair: Repair, text: string, n: nat, k: nat)
    requires n <= k && TextAfter(parse, repair, text, n).None?
    ensures TextAfter(parse, repair, text, k).None?
  {
    if n < k {
      NothingAfterNone(parse, repair, text, n, k - 1);
    }
  }

  lemma NothingParsesLater(parse: Parser, repair: Repair, text: string, n: nat, maxRepairs: int)
    requires n >= maxRepairs && !Parses(parse, repair, text, n)
    requires forall k: nat :: k < n ==> !Parses(parse, repair, text, k)
    ensures forall k: nat :: Parses(parse, repair, text, k) ==> k != 0 && k > maxRepairs
  {
    forall k: nat | k <= n ensures !Parses(parse, repair, text, k) {
    }
  }

  // --------------------------------------------------------------- pipeline

  /** Validation as a function, for stating what two pipelines have in common. */
  function Validation(parse: Parser, repair: Repair, text: string, used: nat, ctx: MarketContext, th: Thresholds,
                      maxRepairs: int): Option<Output>
    decreases maxRepairs - used
  {
    match parse(text)
    case Parsed(output) => Some(ValidateSemantics(ctx, output, th).output)
    case Malformed(reason) =>
      if used >= maxRepairs then None else
        var repaired := repair(used, text, reason);
        if repaired.None? then None
        else Validation(parse, repair, repaired.value, used + 1, ctx, th, maxRepairs)
  }

  datatype TradingSignal = TradingSignal(action: Risk.Action, confidence: real, prefiltered: bool)

  function RepairBy(provider: Provider): Repair {
    (n: nat, text: string, reason: string) =>
      match provider(n + 1, Some((text, reason)))
      case CallFailed(_) => None
      case Answer(repaired) => Some(repaired)
  }

  /** `run`: skip, or call; a failed or invalid call is a HOLD; otherwise the validated output. */
  function RunPipeline(prefilter: bool, provider: Provider, parse: Parser, ctx: MarketContext, th: Thresholds,
                       maxRepairs: int): TradingSignal {
    if prefilter && !LlmCanChangeOutcome(ctx, th) then TradingSignal(Risk.HOLD, 0.0, true) else
      match provider(0, None)
      case CallFailed(_) => TradingSignal(Risk.HOLD, 0.0, false)
      case Answer(text) =>
        var validation := Validation(parse, RepairBy(provider), text, 0, ctx, th, maxRepairs);
        if validation.None? then TradingSignal(Risk.HOLD, 0.0, false)
        else TradingSignal(validation.value.action, validation.value.confidence, false)
  }

  /** Validation yields something exactly when a text within the budget parses, and then it is the rubric's
      verdict on what that text parsed to. */
  lemma {:induction false} ValidationIsSemantic(parse: Parser, repair: Repair, raw: string, text: string, used: nat,
                                                ctx: MarketContext, th: Thresholds, maxRepairs: int)
    requires TextAfter(parse, repair, raw, used) == Some(text) && InBudget(used, maxRepairs)
    ensures var v := Validation(parse, repair, text, used, ctx, th, maxRepairs);
            && (v.Some? <==> exists k: nat :: k >= used && InBudget(k, maxRepairs) && Parses(parse, repair, raw, k))
            && (forall k: nat :: k >= used && InBudget(k, maxRepairs) && Parses(parse, repair, raw, k) ==>
                  v == Some(ValidateSemantics(ctx, OutputAt(parse, repair, raw, k), th).output))
    decreases maxRepairs - used
  {
    if parse(text).Parsed? {
      assert Parses(parse, repair, raw, used);
      forall k: nat | k > used ensures !Parses(parse, repair, raw, k) {
        NothingAfterNone(parse, repair, raw, used + 1, k);
      }
    } else if used < maxRepairs {
      var repaired := repair(used, text, parse(text).reason);
      if repaired.Some? {
        ValidationIsSemantic(parse, repair, raw, repaired.value, used + 1, ctx, th, maxRepairs);
        assert !Parses(parse, repair, raw, used);
      } else {
        forall k: nat | k > used ensures !Parses(parse, repair, raw, k) {
          NothingAfterNone(parse, repair, raw, used + 1, k);
        }
      }
    }
  }

  /** The pre-filter never changes a decision: for every provider, parser, repair budget, threshold and
      context, the emitted action is the same with it on or off; and a signal that trades is the
      same signal. */
  lemma PrefilterNeverChangesTheAction(provider: Provider, parse: Parser, ctx: MarketContext, th: Thresholds,
                                       maxRepairs: int)
    ensures var on := RunPipeline(true, provider, parse, ctx, th, maxRepairs);
            var off := RunPipeline(false, provider, parse, ctx, th, maxRepairs);
            && on.action == off.action
            && (on.action != Risk.HOLD ==> on == off)
  {
    PrefilterIsExact(ctx, th);
    match provider(0, None)
    case CallFailed(_) =>
    case Answer(text) =>
      ValidationIsSemantic(parse, RepairBy(provider), text, text, 0, ctx, th, maxRepairs);
  }

  /** The signal is the rubric's verdict on the text reached after `k` repairs, which parsed. */
  predicate SignalsText(signal: TradingSignal, provider: Provider, parse: Parser, ctx: MarketContext, th: Thresholds,
                        k: nat)
    requires provider(0, None).Answer?
  {
    && Parses(parse, RepairBy(provider), provider(0, None).text, k)
    && var v := ValidateSemantics(ctx, OutputAt(parse, RepairBy(provider), provider(0, None).text, k), th).output;
       signal == TradingSignal(v.action, v.confidence, false)
  }

  /** The pipeline only trades on a validated answer: a BUY or SELL never comes out of a failed or skipped
      call, and is the rubric's verdict on a text within the repair budget that parsed. */
  lemma TradesComeFromValidatedAnswers(prefilter: bool, provider: Provider, parse: Parser, ctx: MarketContext,
                                       th: Thresholds, maxRepairs: int)
    requires RunPipeline(prefilter, provider, parse, ctx, th, maxRepairs).action != Risk.HOLD
    ensures provider(0, None).Answer? && LlmCanChangeOutcome(ctx, th)
    ensures exists k: nat ::
              InBudget(k, maxRepairs)
              && SignalsText(RunPipeline(prefilter, provider, parse, ctx, th, maxRepairs), provider, parse, ctx, th, k)
  {
    PrefilterIsExact(ctx, th);
    var text := provider(0, None).text;
    ValidationIsSemantic(parse, RepairBy(provider), text, text, 0, ctx, th, maxRepairs);
    var k: nat :| InBudget(k, maxRepairs) && Parses(parse, RepairBy(provider), text, k);
    assert SignalsText(RunPipeline(prefilter, provider, parse, ctx, th, maxRepairs), provider, parse, ctx, th, k);
  }

  /** And it trades whenever it may: a model that is asked, answers and is understood within the budget gets
      the rubric's verdict, whatever it is. */
  lemma UnderstoodAnswersAreSignalled(prefilter: bool, provider: Provider, parse: Parser, ctx: MarketContext,
                                      th: Thresholds, maxRepairs: int, k: nat)
    requires provider(0, None).Answer? && (prefilter ==> LlmCanChangeOutcome(ctx, th))
    requires InBudget(k, maxRepairs) && Parses(parse, RepairBy(provider), provider(0, None).text, k)
    ensures SignalsText(RunPipeline(prefilter, provider, parse, ctx, th, maxRepairs), provider, parse, ctx, th, k)
  {
    var text := provider(0, None).text;
    ValidationIsSemantic(parse, RepairBy(provider), text, text, 0, ctx, th, maxRepairs);
  }

  /** Everything short of an understood answer is a HOLD without confidence: a skipped call, marked as such, a
      failed one, and one whose every text within the budget is malformed. */
  lemma EverythingElseHolds(prefilter: bool, provider: Provider, parse: Parser, ctx: MarketContext, th: Thresholds,
                            maxRepairs: int)
    ensures var signal := RunPipeline(prefilter, provider, parse, ctx, th, maxRepairs);
            && (signal.prefiltered <==> prefilter && !LlmCanChangeOutcome(ctx, th))
            && (signal.prefiltered ==> signal.action == Risk.HOLD && signal.confidence == 0.0)
            && (!signal.prefiltered && provider(0, None).CallFailed? ==> signal.action == Risk.HOLD && signal.confidence == 0.0)
            && (!signal.prefiltered && provider(0, None).Answer?
                && (forall k: nat :: InBudget(k, maxRepairs) ==>
                      !Parses(parse, RepairBy(provider), provider(0, None).text, k)) ==>
                  signal.action == Risk.HOLD && signal.confidence == 0.0)
  {
    if provider(0, None).Answer? {
      var text := provider(0, None).text;
      ValidationIsSemantic(parse, RepairBy(provider), text, text, 0, ctx, th, maxRepairs);
    }
  }

  /** The text after a repair is the answer to the next numbered call, given the malformed text before it. */
  lemma RepairsAreNumbered(provider: Provider, parse: Parser, text: string, k: nat)
    ensures var before := TextAfter(parse, RepairBy(provider), text, k);
            before.Some? && parse(before.value).Malformed? ==>
              var answer := provider(k + 1, Some((before.value, parse(before.value).reason)));
              TextAfter(parse, RepairBy(provider), text, k + 1) == if answer.Answer? then Some(answer.text) else None
  {
  }

  // ------------------------------------------------- through the Risk Engine

  datatype Verdict = Entry(decision: Result<Risk.RiskDecision>) | Exit(exitDecision: Risk.ExitDecision)

  /** What the Risk Engine decides about a signal the pipeline emitted. */
  function Decide(signal: TradingSignal, view: Risk.SignalView, account: Risk.AccountState, config: Risk.RiskConfig,
                  now: Time, kill: bool, dup: bool, expectancy: Risk.ExpectancyView): Verdict {
    var emitted := view.(action := signal.action, confidence := signal.confidence);
    if signal.action == Risk.SELL then Exit(Risk.EvaluateExit(emitted, account, config, now, dup))
    else Entry(Risk.Evaluate(emitted, account, config, now, kill, dup, expectancy))
  }

  /** A SELL is judged as an exit, which the kill switch never stops; anything else as an entry, which it always
      does unless sizing raises. */
  lemma KillSwitchSparesExits(signal: TradingSignal, view: Risk.SignalView, account: Risk.AccountState,
                              config: Risk.RiskConfig, now: Time, dup: bool, expectancy: Risk.ExpectancyView)
    ensures var free := Decide(signal, view, account, config, now, false, dup, expectancy);
            var tripped := Decide(signal, view, account, config, now, true, dup, expectancy);
            if signal.action == Risk.SELL then
              && free.Exit? && tripped == free
              && (free.exitDecision.approved <==>
                    !dup && now <= view.candleTs + config.signalMaxAgeMinutes * MINUTE && view.symbol in account.openSymbols)
            else
              && free.Entry? && tripped.Entry? && tripped.decision.Success? == free.decision.Success?
              && (tripped.decision.Success? ==> tripped.decision.value.rejectionReason == Some(Risk.KillswitchActive))
  {
    var emitted := view.(action := signal.action, confidence := signal.confidence);
    if signal.action == Risk.SELL {
      RiskFacts.ExitApprovedIff(emitted, account, config, now, dup);
    } else if Risk.Evaluate(emitted, account, config, now, true, dup, expectancy).Success? {
      RiskFacts.KillSwitchDominates(emitted, account, config, now, true, dup, expectancy);
    }
  }

  /** Across both services: turning the pre-filter on changes no risk decision, rejection reason or
      kill-switch trip, even though a skipped HOLD carries a different confidence. */
  lemma PrefilterNeverChangesTheVerdict(provider: Provider, parse: Parser, ctx: MarketContext, th: Thresholds,
                                        maxRepairs: int, view: Risk.SignalView, account: Risk.AccountState,
                                        config: Risk.RiskConfig, now: Time, kill: bool, dup: bool,
                                        expectancy: Risk.ExpectancyView)
    ensures Decide(RunPipeline(true, provider, parse, ctx, th, maxRepairs), view, account, config, now, kill, dup,
                   expectancy)
            == Decide(RunPipeline(false, provider, parse, ctx, th, maxRepairs), view, account, config, now, kill, dup,
                      expectancy)
  {
    var on := RunPipeline(true, provider, parse, ctx, th, maxRepairs);
    var off := RunPipeline(false, provider, parse, ctx, th, maxRepairs);
    PrefilterNeverChangesTheAction(provider, parse, ctx, th, maxRepairs);
    if on.action == Risk.HOLD {
      var held := view.(action := Risk.HOLD, confidence := on.confidence);
      RiskFacts.HoldIgnoresConfidence(held, account, config, now, kill, dup, expectancy, off.confidence);
      assert held.(confidence := off.confidence) == view.(action := Risk.HOLD, confidence := off.confidence);
    }
  }
}
