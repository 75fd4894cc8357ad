/** The deterministic Risk Engine: sizing, the twelve entry gates, and the exit gate. */
module Risk {
  import opened Arithmetic
  import opened Common

  datatype Action = BUY | SELL | HOLD

  datatype RejectionReason =
    | LowConfidence
    | StaleSignal
    | SignalWasHold
    | NegativeExpectancySetup
    | MaxPositionsReached
    | MaxExposureReached
    | DailyLossLimitHit
    | ConsecutiveLossPause
    | CooldownActive
    | KillswitchActive
    | DuplicateDecision
    | InsufficientBalance
    | NoPositionToExit

  datatype RiskConfig = RiskConfig(
    riskPerTradePct: real,
    maxPositionPct: real,
    maxTotalExposurePct: real,
    maxOpenPositions: int,
    maxDailyLossPct: real,
    consecutiveLossLimit: int,
    cooldownMinutes: int,
    minConfidence: real,
    minConfidenceSizeScale: real,
    signalMaxAgeMinutes: int,
    atrStopMultiplier: real,
    minStopLossPct: real,
    maxStopLossPct: real,
    expectancyFilterEnabled: bool,
    expectancyMinSampleSize: int,
    expectancyMinR: real
  )

  datatype SignalView = SignalView(
    symbol: Symbol, action: Action, confidence: real, candleTs: Time, price: real, atr14: real)

  datatype AccountState = AccountState(
    equity: real,
    freeBalance: real,
    openSymbols: set<Symbol>,
    totalExposure: real,
    dailyPnlPct: real,
    consecutiveLosses: int,
    lastLossClosedAt: Option<Time>,
    symbolLastClosedAt: map<Symbol, Time>
  )

  datatype ExpectancyView = ExpectancyView(sampleSize: int, expectancyR: Option<real>)

  datatype SizingResult = SizingResult(
    positionSize: real,
    positionSizeBase: real,
    stopLossPrice: real,
    stopDistancePct: real,
    riskPctApplied: real,
    nominalRisk: real,
    actualRisk: real
  )

  datatype RuleContext = RuleContext(
    signal: SignalView,
    account: AccountState,
    config: RiskConfig,
    now: Time,
    killswitchEnabled: bool,
    isDuplicate: bool,
    candidate: SizingResult,
    expectancy: ExpectancyView
  )

  // ---------------------------------------------------------------- sizing

  function Lerp(scale: real, ratio: real): real {
    scale + Times(1.0 - scale, ratio)
  }

  function LinearScale(confidence: real, minConfidence: real, scale: real): real {
    var range := 1.0 - minConfidence;
    if range <= 0.0 then 1.0 else
      Lerp(scale, Clamp(Over(confidence - minConfidence, range), 0.0, 1.0))
  }

  function ConfidenceScale(confidence: real, config: RiskConfig): real {
    LinearScale(confidence, config.minConfidence, config.minConfidenceSizeScale)
  }

  /** The risk budget, the position cap and the free balance, clamped at zero and then scaled. */
  function PositionSize(budget: real, cap: real, freeBalance: real, scale: real): real {
    Times(Max(Min(Min(budget, cap), freeBalance), 0.0), scale)
  }

  function StopDistance(price: real, atr14: real, config: RiskConfig): real
    requires price != 0.0
  {
    Clamp(Times(Over(atr14, price), config.atrStopMultiplier), config.minStopLossPct, config.maxStopLossPct)
  }

  function ComputeSizing(equity: real, freeBalance: real, price: real, atr14: real, confidence: real,
                         config: RiskConfig): Result<SizingResult> {
    if price == 0.0 || StopDistance(price, atr14, config) == 0.0 then Failure(DivisionByZero) else
    var nominal := Times(equity, config.riskPerTradePct);
    var distance := StopDistance(price, atr14, config);
    var size := PositionSize(Over(nominal, distance), Times(equity, config.maxPositionPct), freeBalance,
                             ConfidenceScale(confidence, config));
    Success(SizingResult(
              size,
              if price > 0.0 then Over(size, price) else 0.0,
              Times(price, 1.0 - distance),
              distance,
              config.riskPerTradePct,
              nominal,
              Times(size, distance)))
  }

  // ----------------------------------------------------------------- gates

  datatype RuleViolation = RuleViolation(reason: RejectionReason, autoTripKillswitch: bool)

  type Rule = RuleContext -> Option<RuleViolation>

  function Reject(reason: RejectionReason): Option<RuleViolation> {
    Some(RuleViolation(reason, false))
  }

  function KillSwitch(ctx: RuleContext): Option<RuleViolation> {
    if ctx.killswitchEnabled then Reject(KillswitchActive) else None
  }

  function DuplicateSignal(ctx: RuleContext): Option<RuleViolation> {
    if ctx.isDuplicate then Reject(DuplicateDecision) else None
  }

  function SignalAction(ctx: RuleContext): Option<RuleViolation> {
    if ctx.signal.action == HOLD then Reject(SignalWasHold) else None
  }

  function SignalStaleness(ctx: RuleContext): Option<RuleViolation> {
    if ctx.now - ctx.signal.candleTs > ctx.config.signalMaxAgeMinutes * MINUTE then Reject(StaleSignal) else None
  }

  function MinConfidence(ctx: RuleContext): Option<RuleViolation> {
    if ctx.signal.confidence < ctx.config.minConfidence then Reject(LowConfidence) else None
  }

  datatype ExpectancyVerdict = Allow | InsufficientData | NegativeExpectancy

  function Verdict(ctx: RuleContext): ExpectancyVerdict {
    if ctx.expectancy.expectancyR.None? || ctx.expectancy.sampleSize < ctx.config.expectancyMinSampleSize
    then InsufficientData
    else if ctx.expectancy.expectancyR.value < ctx.config.expectancyMinR then NegativeExpectancy
    else Allow
  }

  function ExpectancyFilter(ctx: RuleContext): Option<RuleViolation> {
    if !ctx.config.expectancyFilterEnabled then None
    else if Verdict(ctx) == NegativeExpectancy then Reject(NegativeExpectancySetup)
    else None
  }

  function MaxOpenPositions(ctx: RuleContext): Option<RuleViolation> {
    if ctx.signal.symbol in ctx.account.openSymbols || |ctx.account.openSymbols| >= ctx.config.maxOpenPositions
    then Reject(MaxPositionsReached)
    else None
  }

  function MaxTotalExposure(ctx: RuleContext): Option<RuleViolation> {
    if ctx.account.totalExposure + ctx.candidate.positionSize > Times(ctx.config.maxTotalExposurePct, ctx.account.equity)
    then Reject(MaxExposureReached)
    else None
  }

  function MaxDailyLoss(ctx: RuleContext): Option<RuleViolation> {
    if ctx.account.dailyPnlPct <= -ctx.config.maxDailyLossPct
    then Some(RuleViolation(DailyLossLimitHit, true))
    else None
  }

  function ConsecutiveLosses(ctx: RuleContext): Option<RuleViolation> {
    if ctx.account.consecutiveLosses < ctx.config.consecutiveLossLimit then None
    else Some(RuleViolation(ConsecutiveLossPause, true))
  }

  function Cooldown(ctx: RuleContext): Option<RuleViolation> {
    if ctx.signal.symbol !in ctx.account.symbolLastClosedAt then None
    else if ctx.now - ctx.account.symbolLastClosedAt[ctx.signal.symbol] < ctx.config.cooldownMinutes * MINUTE
    then Reject(CooldownActive)
    else None
  }

  function Balance(ctx: RuleContext): Option<RuleViolation> {
    if ctx.candidate.positionSize > ctx.account.freeBalance then Reject(InsufficientBalance) else None
  }

  const RULES_IN_ORDER: seq<Rule> := [
    KillSwitch, DuplicateSignal, SignalAction, SignalStaleness, MinConfidence, ExpectancyFilter,
    MaxOpenPositions, MaxTotalExposure, MaxDailyLoss, ConsecutiveLosses, Cooldown, Balance]

  function FirstViolation(rules: seq<Rule>, ctx: RuleContext): Option<RuleViolation> {
    if rules == [] then None
    else if rules[0](ctx).Some? then rules[0](ctx)
    else FirstViolation(rules[1..], ctx)
  }

  // ------------------------------------------------------------- evaluator

  datatype RiskDecision = RiskDecision(
    approved: bool,
    rejectionReason: Option<RejectionReason>,
    sizing: Option<SizingResult>,
    autoTripKillswitch: bool,
    verdict: ExpectancyVerdict,
    enforced: bool
  )

  function Decide(rules: seq<Rule>, ctx: RuleContext): RiskDecision {
    var violation := FirstViolation(rules, ctx);
    if violation.Some? then
      RiskDecision(false, Some(violation.value.reason), None, violation.value.autoTripKillswitch,
                   Verdict(ctx), ctx.config.expectancyFilterEnabled)
    else
      RiskDecision(true, None, Some(ctx.candidate), false, Verdict(ctx), ctx.config.expectancyFilterEnabled)
  }

  function Context(signal: SignalView, account: AccountState, config: RiskConfig, now: Time,
                   killswitchEnabled: bool, isDuplicate: bool, expectancy: ExpectancyView): Result<RuleContext> {
    var candidate :- ComputeSizing(account.equity, account.freeBalance, signal.price, signal.atr14,
                                   signal.confidence, config);
    Success(RuleContext(signal, account, config, now, killswitchEnabled, isDuplicate, candidate, expectancy))
  }

  /** The entry decision: sizing up front, then the first failing gate. */
  function Evaluate(signal: SignalView, account: AccountState, config: RiskConfig, now: Time,
                    killswitchEnabled: bool, isDuplicate: bool, expectancy: ExpectancyView): Result<RiskDecision> {
    var ctx :- Context(signal, account, config, now, killswitchEnabled, isDuplicate, expectancy);
    Success(Decide(RULES_IN_ORDER, ctx))
  }

  datatype ExitDecision = ExitDecision(approved: bool, rejectionReason: Option<RejectionReason>)

  /** The exit decision: duplicate, stale, nothing to exit; else approve. */
  function EvaluateExit(signal: SignalView, account: AccountState, config: RiskConfig, now: Time,
                        isDuplicate: bool): ExitDecision {
    if isDuplicate then ExitDecision(false, Some(DuplicateDecision))
    else if now - signal.candleTs > config.signalMaxAgeMinutes * MINUTE then ExitDecision(false, Some(StaleSignal))
    else if signal.symbol !in account.openSymbols then ExitDecision(false, Some(NoPositionToExit))
    else ExitDecision(true, None)
  }
}
