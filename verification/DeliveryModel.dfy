/** How a signal travels from a closed candle to the exchange: scheduler cycles, the shared keys with their
    expiry times, the stream, and the risk-engine consumers. Steps of different processes interleave
    freely, any process may stop between two steps, and the clock moves as far as the run's bounds allow. */
module DeliveryModel {
  import opened Common
  import opened Risk

  type SignalId = nat

  /** What a run may assume: the candle period; how long a cycle takes at most from its fetch to its claim,
      and from taking the lock to leaving or crashing; the largest signal age any loaded configuration
      accepts; and whether a message that was not acknowledged is delivered again. The consumer loop as
      written only asks for new messages, so it runs without redelivery. */
  datatype Params = Params(period: Time, delay: Time, hold: Time, maxAge: Time, redelivery: bool) {
    predicate Sane() {
      period > 0 && delay >= 0 && hold >= 0
    }

    /** The longest a claim can trail its fetch. */
    function Lag(): Time {
      if delay <= hold then delay else hold
    }
  }

  const CYCLE_LOCK_TTL: Time := 5 * MINUTE
  const DECISION_KEY_TTL: Time := DAY

  /** One candle of one pair, named by its opening time. */
  datatype Slot = Slot(symbol: Symbol, open: Time)

  datatype Claim = Claim(slot: Slot, at: Time)

  datatype Stage =
    | Locked
    | Fetched(slot: Slot, at: Time)
    | Claimed(claim: nat)
    | Committed(id: SignalId)
    | Leaving

  datatype Cycle = Cycle(symbol: Symbol, since: Time, stage: Stage)

  /** A committed signal row and the claim it was made under. */
  datatype Row = Row(view: SignalView, claim: nat)

  /** The decision key won for a signal, an approval under a win, and what became of the approval. */
  datatype Win = Win(id: SignalId, at: Time)
  datatype Approval = Approval(id: SignalId, win: Option<nat>, at: Time)
  datatype Submission = Submission(id: SignalId, approval: nat)
  datatype Decision = Decision(id: SignalId, approval: Option<nat>)

  datatype Consumer =
    | Holding(id: SignalId)
    | Keyed(id: SignalId, win: Option<nat>)
    | Judged(id: SignalId, approval: Option<nat>)
    | Sent(id: SignalId, approval: Option<nat>)
    | Done(id: SignalId)

  /** `claims`, `wins`, `approvals` and `submissions` record what happened; no process reads them. */
  datatype World = World(
    now: Time,
    locks: map<Symbol, Time>,
    candleKeys: map<Slot, Time>,
    decisionKeys: map<SignalId, Time>,
    cycles: map<nat, Cycle>,
    consumers: map<nat, Consumer>,
    signals: seq<Row>,
    stream: set<SignalId>,
    received: set<SignalId>,
    acked: set<SignalId>,
    decisions: seq<Decision>,
    claims: seq<Claim>,
    wins: seq<Win>,
    approvals: seq<Approval>,
    submissions: seq<Submission>
  )

  function Start(now: Time): World {
    World(now, map[], map[], map[], map[], map[], [], {}, {}, {}, [], [], [], [], [])
  }

  datatype Step =
    | Tick(later: Time)
    // scheduler
    | TakeLock(c: nat, symbol: Symbol)
    | Fetch(c: nat, open: Time)
    | ClaimCandle(c: nat)
    | Commit(c: nat, view: SignalView)
    | Publish(c: nat)
    | Leave(c: nat)
    | Crash(c: nat)
    // risk engine
    | Receive(k: nat, id: SignalId)
    | NotFound(k: nat)
    | BalanceDown(k: nat)
    | TakeKey(k: nat)
    | Judge(k: nat, account: AccountState, config: RiskConfig, killswitch: bool, expectancy: ExpectancyView)
    | Submit(k: nat)
    | Record(k: nat)
    | Ack(k: nat)
    | Drop(k: nat)

  /** A key set with an expiry still exists. */
  predicate Live<K>(keys: map<K, Time>, key: K, now: Time) {
    key in keys && now < keys[key]
  }

  /** The newest candle of the grid that has already closed. */
  predicate NewestClosed(open: Time, now: Time, period: Time)
    requires period > 0
  {
    open % period == 0 && open + period <= now < open + 2 * period
  }

  /** SELL signals pass the exit gate, all others the entry rules; an evaluation that raises rejects. */
  function Approves(view: SignalView, account: AccountState, config: RiskConfig, now: Time, killswitch: bool,
                    duplicate: bool, expectancy: ExpectancyView): bool {
    if view.action == SELL then EvaluateExit(view, account, config, now, duplicate).approved
    else
      var d := Evaluate(view, account, config, now, killswitch, duplicate, expectancy);
      d.Success? && d.value.approved
  }

  predicate Enabled(p: Params, w: World, step: Step)
    requires p.period > 0
  {
    match step
    case Tick(later) => later >= w.now && forall c :: c in w.cycles ==> later <= w.cycles[c].since + p.hold
    case TakeLock(c, symbol) => c !in w.cycles && !Live(w.locks, symbol, w.now)
    case Fetch(c, open) => c in w.cycles && w.cycles[c].stage.Locked? && NewestClosed(open, w.now, p.period)
    case ClaimCandle(c) => c in w.cycles && w.cycles[c].stage.Fetched? && w.now - w.cycles[c].stage.at <= p.delay
    case Commit(c, view) =>
      && c in w.cycles && w.cycles[c].stage.Claimed? && w.cycles[c].stage.claim < |w.claims|
      && view.symbol == w.claims[w.cycles[c].stage.claim].slot.symbol
      && view.candleTs == w.claims[w.cycles[c].stage.claim].slot.open + p.period
    case Publish(c) => c in w.cycles && w.cycles[c].stage.Committed?
    case Leave(c) => c in w.cycles
    case Crash(c) => c in w.cycles
    case Receive(k, id) =>
      k !in w.consumers && id in w.stream && id !in w.acked && (p.redelivery || id !in w.received)
    case NotFound(k) => k in w.consumers && w.consumers[k].Holding? && w.consumers[k].id >= |w.signals|
    case BalanceDown(k) => k in w.consumers && w.consumers[k].Holding? && w.consumers[k].id < |w.signals|
    case TakeKey(k) => k in w.consumers && w.consumers[k].Holding? && w.consumers[k].id < |w.signals|
    case Judge(k, _, config, _, _) =>
      && k in w.consumers && w.consumers[k].Keyed? && w.consumers[k].id < |w.signals|
      && config.signalMaxAgeMinutes * MINUTE <= p.maxAge
    case Submit(k) => k in w.consumers && w.consumers[k].Judged? && w.consumers[k].approval.Some?
    case Record(k) =>
      // An approved entry is always submitted before its decision is committed; an approved exit may find
      // its position gone and send nothing.
      && k in w.consumers && (w.consumers[k].Judged? || w.consumers[k].Sent?) && w.consumers[k].id < |w.signals|
      && (w.consumers[k].Judged? && w.consumers[k].approval.Some? ==> w.signals[w.consumers[k].id].view.action == SELL)
    case Ack(k) => k in w.consumers && w.consumers[k].Done?
    case Drop(k) => k in w.consumers
  }

  function SetStage(w: World, c: nat, stage: Stage): map<nat, Cycle>
    requires c in w.cycles
  {
    w.cycles[c := w.cycles[c].(stage := stage)]
  }

  function Do(p: Params, w: World, step: Step): World
    requires p.period > 0 && Enabled(p, w, step)
  {
    match step
    case Tick(later) => w.(now := later)
    case TakeLock(c, symbol) =>
      w.(locks := w.locks[symbol := w.now + CYCLE_LOCK_TTL], cycles := w.cycles[c := Cycle(symbol, w.now, Locked)])
    case Fetch(c, open) => w.(cycles := SetStage(w, c, Fetched(Slot(w.cycles[c].symbol, open), w.now)))
    case ClaimCandle(c) =>
      var slot := w.cycles[c].stage.slot;
      if Live(w.candleKeys, slot, w.now) then w.(cycles := SetStage(w, c, Leaving))
      else w.(candleKeys := w.candleKeys[slot := w.now + 2 * p.period], claims := w.claims + [Claim(slot, w.now)],
              cycles := SetStage(w, c, Claimed(|w.claims|)))
    case Commit(c, view) =>
      w.(signals := w.signals + [Row(view, w.cycles[c].stage.claim)], cycles := SetStage(w, c, Committed(|w.signals|)))
    case Publish(c) => w.(stream := w.stream + {w.cycles[c].stage.id}, cycles := SetStage(w, c, Leaving))
    // The lock is deleted by name: whoever leaves frees it, even if it expired and has a new holder.
    case Leave(c) => w.(locks := w.locks - {w.cycles[c].symbol}, cycles := w.cycles - {c})
    case Crash(c) => w.(cycles := w.cycles - {c})
    case Receive(k, id) => w.(consumers := w.consumers[k := Holding(id)], received := w.received + {id})
    case NotFound(k) => w.(consumers := w.consumers[k := Done(w.consumers[k].id)])
    case BalanceDown(k) =>
      w.(decisions := w.decisions + [Decision(w.consumers[k].id, None)],
         consumers := w.consumers[k := Done(w.consumers[k].id)])
    case TakeKey(k) =>
      var id := w.consumers[k].id;
      if Live(w.decisionKeys, id, w.now) then w.(consumers := w.consumers[k := Keyed(id, None)])
      else w.(decisionKeys := w.decisionKeys[id := w.now + DECISION_KEY_TTL], wins := w.wins + [Win(id, w.now)],
              consumers := w.consumers[k := Keyed(id, Some(|w.wins|))])
    case Judge(k, account, config, killswitch, expectancy) =>
      var id, win := w.consumers[k].id, w.consumers[k].win;
      if Approves(w.signals[id].view, account, config, w.now, killswitch, win.None?, expectancy)
      then w.(approvals := w.approvals + [Approval(id, win, w.now)],
              consumers := w.consumers[k := Judged(id, Some(|w.approvals|))])
      else w.(consumers := w.consumers[k := Judged(id, None)])
    case Submit(k) =>
      var id, approval := w.consumers[k].id, w.consumers[k].approval;
      w.(submissions := w.submissions + [Submission(id, approval.value)],
         consumers := w.consumers[k := Sent(id, approval)])
    case Record(k) =>
      var id, approval := w.consumers[k].id, w.consumers[k].approval;
      w.(decisions := w.decisions + [Decision(id, approval)], consumers := w.consumers[k := Done(id)])
    case Ack(k) => w.(acked := w.acked + {w.consumers[k].id}, consumers := w.consumers - {k})
    case Drop(k) => w.(consumers := w.consumers - {k})
  }

  /** The state after a run, if every step was possible when it happened. */
  function Exec(p: Params, w: World, steps: seq<Step>): Option<World>
    requires p.period > 0
    decreases |steps|
  {
    if steps == [] then Some(w)
    else if !Enabled(p, w, steps[0]) then None
    else Exec(p, Do(p, w, steps[0]), steps[1..])
  }

  ghost predicate Reachable(p: Params, w: World)
    requires p.period > 0
  {
    exists now: Time, steps: seq<Step> :: Exec(p, Start(now), steps) == Some(w)
  }
}
