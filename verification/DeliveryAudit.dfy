/** What the delivery protocol leaves behind: decisions for every acknowledged signal, signals of closed candles only,
    and locks that outlive a crash. */
module DeliveryAudit {
  import opened Common
  import opened DeliveryFacts
  import opened DeliveryModel
  import opened Risk

  // ------------------------------------------------------------ nothing is silent

  predicate Decided(w: World, id: SignalId) {
    exists i :: 0 <= i < |w.decisions| && w.decisions[i].id == id
  }

  /** Whatever a consumer is about to acknowledge, or has acknowledged, has a decision on record. */
  ghost predicate NothingSilent(w: World) {
    && (forall k :: k in w.consumers && w.consumers[k].Done? ==> Decided(w, w.consumers[k].id))
    && (forall id :: id in w.acked ==> Decided(w, id))
  }

  lemma StillDecided(w: World, v: World)
    requires w.decisions <= v.decisions
    ensures forall id :: Decided(w, id) ==> Decided(v, id)
  {
    forall id | Decided(w, id) ensures Decided(v, id) {
      var i :| 0 <= i < |w.decisions| && w.decisions[i].id == id;
      assert v.decisions[i].id == id;
    }
  }

  /** No step records a decision for another signal than its consumer's, takes one back, or acknowledges early. */
  lemma StepIsHeard(p: Params, w: World, step: Step)
    requires p.Sane() && SchedulerInv(p, w) && EngineInv(p, w) && NothingSilent(w) && Enabled(p, w, step)
    ensures NothingSilent(Do(p, w, step))
  {
    hide Approves, SchedulerInv, EngineInv, Decided, NewestClosed;
    if EngineMoves(step) {
      EngineIsHeard(p, w, step);
    } else {
      SchedulerIsSilent(p, w, step);
    }
  }

  lemma SchedulerIsSilent(p: Params, w: World, step: Step)
    requires p.Sane() && NothingSilent(w) && Enabled(p, w, step) && !EngineMoves(step)
    ensures NothingSilent(Do(p, w, step))
  {
    hide Approves, NewestClosed, Decided;
    StillDecided(w, Do(p, w, step));
  }

  lemma EngineIsHeard(p: Params, w: World, step: Step)
    requires p.Sane() && SchedulerInv(p, w) && EngineInv(p, w) && NothingSilent(w) && Enabled(p, w, step)
    requires EngineMoves(step)
    ensures NothingSilent(Do(p, w, step))
  {
    hide Approves, SchedulerInv, WinsInv, ApprovalsInv, SubmissionsInv, DecisionsInv, Decided;
    var v := Do(p, w, step);
    StillDecided(w, v);
    if step.Record? || step.BalanceDown? {
      LastIsDecided(v);
    } else if step.NotFound? {
      assert ConsumerOk(w, w.consumers[step.k]);
      StreamIsCommitted(p, w);
    }
  }

  lemma LastIsDecided(v: World)
    ensures v.decisions != [] ==> Decided(v, v.decisions[|v.decisions| - 1].id)
  {
  }

  lemma StreamIsCommitted(p: Params, w: World)
    requires SchedulerInv(p, w)
    ensures forall id :: id in w.stream ==> id < |w.signals|
  {
  }

  lemma {:induction false} RunIsHeard(p: Params, w: World, steps: seq<Step>)
    requires p.Sane() && SchedulerInv(p, w) && EngineInv(p, w) && NothingSilent(w) && Exec(p, w, steps).Some?
    ensures NothingSilent(Exec(p, w, steps).value)
    decreases |steps|
  {
    hide Do, SchedulerInv, EngineInv, NothingSilent;
    if steps != [] {
      SchedulerStep(p, w, steps[0]);
      EngineStep(p, w, steps[0]);
      StepIsHeard(p, w, steps[0]);
      RunIsHeard(p, Do(p, w, steps[0]), steps[1..]);
    }
  }

  /** In every run an acknowledged message has a decision on record. */
  lemma AcknowledgedIsDecided(p: Params, w: World, id: SignalId)
    requires p.Sane() && Reachable(p, w) && id in w.acked
    ensures exists i :: 0 <= i < |w.decisions| && w.decisions[i].id == id
  {
    var now: Time, steps: seq<Step> :| Exec(p, Start(now), steps) == Some(w);
    RunIsHeard(p, Start(now), steps);
    assert Decided(w, id);
  }

  // ---------------------------------------------------------------- closed candles

  /** In every run a signal is of a candle that had closed when it was claimed, and the next candle of the pair had
      not closed longer ago than a claim may trail its fetch. */
  lemma SignalsAreOfClosedCandles(p: Params, w: World, i: nat)
    requires p.Sane() && Reachable(p, w) && i < |w.signals|
    ensures w.signals[i].claim < |w.claims|
    ensures var closed, claimed := w.signals[i].view.candleTs, w.claims[w.signals[i].claim].at;
            closed <= claimed < closed + p.period + p.Lag() && claimed <= w.now
  {
    ReachableInvariants(p, w);
    assert RowOk(p, w, w.signals[i]);
    assert ClaimOk(p, w, w.claims[w.signals[i].claim]);
  }

  // ------------------------------------------------------------------------ locks

  /** A cycle that starts shuts its pair for five minutes, to whoever comes and even if it crashes; one that leaves
      opens it at once. */
  lemma LockOutlivesCrash(p: Params, w: World, c: nat, symbol: Symbol, later: Time, d: nat)
    requires p.Sane() && Enabled(p, w, TakeLock(c, symbol)) && d !in w.cycles && d != c && later >= w.now
    ensures var started := Do(p, w, TakeLock(c, symbol));
            && Enabled(p, started, Crash(c)) && Enabled(p, started, Leave(c))
            && var crashed, left := Do(p, started, Crash(c)).(now := later), Do(p, started, Leave(c)).(now := later);
               && (Enabled(p, started.(now := later), TakeLock(d, symbol)) <==> later >= w.now + 5 * 60 * 1_000_000)
               && (Enabled(p, crashed, TakeLock(d, symbol)) <==> later >= w.now + 5 * 60 * 1_000_000)
               && Enabled(p, left, TakeLock(d, symbol))
               && crashed.signals == w.signals && crashed.stream == w.stream && crashed.candleKeys == w.candleKeys
  {
    hide Approves;
  }

  /** A consumer that dies leaves its message unacknowledged and its signal's key in place: with redelivery another
      one gets it, without nobody does. */
  lemma DeathKeepsMessage(p: Params, w: World, k: nat, d: nat)
    requires p.Sane() && Reachable(p, w) && k in w.consumers && d !in w.consumers && w.consumers[k].id !in w.acked
    requires w.consumers[k].id in w.received
    ensures Enabled(p, w, Drop(k))
    ensures var v, id := Do(p, w, Drop(k)), w.consumers[k].id;
            && (Enabled(p, v, Receive(d, id)) <==> p.redelivery)
            && v.decisionKeys == w.decisionKeys && v.decisions == w.decisions && v.submissions == w.submissions
  {
    ReachableInvariants(p, w);
    assert ConsumerOk(w, w.consumers[k]);
  }
}
