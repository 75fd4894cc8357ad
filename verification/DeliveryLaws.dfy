/** What the delivery protocol promises about candles, signals and exchange requests, and exactly when. */
module DeliveryLaws {
  import opened Arithmetic
  import opened Common
  import opened DeliveryFacts
  import opened DeliveryModel
  import opened Risk
  import opened RiskFacts

  // ------------------------------------------------------------ safety laws

  /** At most one signal row per pair and candle. */
  ghost predicate OneRowPerCandle(w: World) {
    forall i, j :: 0 <= i < j < |w.signals| && w.signals[i].view.symbol == w.signals[j].view.symbol ==>
                     w.signals[i].view.candleTs != w.signals[j].view.candleTs
  }

  /** At most one approval, one exchange request and one approved decision per signal. */
  ghost predicate OncePerSignal(w: World) {
    && (forall i, j :: 0 <= i < j < |w.approvals| ==> w.approvals[i].id != w.approvals[j].id)
    && (forall i, j :: 0 <= i < j < |w.submissions| ==> w.submissions[i].id != w.submissions[j].id)
    && (forall i, j :: 0 <= i < j < |w.decisions| && w.decisions[i].approval.Some? && w.decisions[j].approval.Some? ==>
          w.decisions[i].id != w.decisions[j].id)
  }

  /** Every id on the stream names a committed row, so a consumer never fails to find its signal. */
  lemma PublishedIsCommitted(p: Params, w: World)
    requires p.Sane() && Reachable(p, w)
    ensures forall id :: id in w.stream ==> id < |w.signals|
    ensures forall k :: !Enabled(p, w, NotFound(k))
  {
    ReachableInvariants(p, w);
    forall k | k in w.consumers ensures w.consumers[k].id < |w.signals| {
      assert ConsumerOk(w, w.consumers[k]);
    }
  }

  /** A row is put on the stream at most once, so its id stands for its only message. */
  lemma PublishedOnce(p: Params, w: World, c: nat)
    requires p.Sane() && Reachable(p, w) && Enabled(p, w, Publish(c))
    ensures w.cycles[c].stage.id !in w.stream
  {
    ReachableInvariants(p, w);
    assert CycleOk(p, w, w.cycles[c]);
  }

  lemma TimelyClaimsDiffer(p: Params, w: World)
    requires p.Sane() && p.Lag() <= p.period && SchedulerInv(p, w)
    ensures forall i, j :: 0 <= i < |w.claims| && 0 <= j < |w.claims| && i != j ==> w.claims[i].slot != w.claims[j].slot
  {
    forall i, j | 0 <= i < j < |w.claims| ensures w.claims[i].slot != w.claims[j].slot {
      assert ClaimOk(p, w, w.claims[i]) && ClaimOk(p, w, w.claims[j]) && Spaced(p, w.claims[i], w.claims[j]);
    }
  }

  lemma TimelyRowsDiffer(p: Params, w: World)
    requires p.Sane() && p.Lag() <= p.period && Reachable(p, w)
    ensures OneRowPerCandle(w)
  {
    ReachableInvariants(p, w);
    TimelyClaimsDiffer(p, w);
    forall i, j | 0 <= i < j < |w.signals| && w.signals[i].view.symbol == w.signals[j].view.symbol
      ensures w.signals[i].view.candleTs != w.signals[j].view.candleTs
    {
      var a, b := w.signals[i], w.signals[j];
      assert RowOk(p, w, a) && RowOk(p, w, b) && a.claim != b.claim;
      assert w.claims[a.claim].slot != w.claims[b.claim].slot;
    }
  }

  /** Two approvals of one signal are a key lifetime apart, too late for the second to be fresh. */
  lemma ApprovalsDiffer(p: Params, w: World, i: nat, j: nat)
    requires p.Sane() && p.maxAge < DECISION_KEY_TTL && EngineInv(p, w)
    requires i < |w.approvals| && j < |w.approvals| && i != j
    ensures w.approvals[i].id != w.approvals[j].id
  {
    var a, b := w.approvals[i], w.approvals[j];
    assert ApprovalOk(p, w, a) && ApprovalOk(p, w, b) && a.win != b.win;
    var x, y := a.win.value, b.win.value;
    assert WinOk(w, w.wins[x]) && WinOk(w, w.wins[y]);
    if x < y {
      assert WinsSpaced(w.wins[x], w.wins[y]);
    } else {
      assert WinsSpaced(w.wins[y], w.wins[x]);
    }
  }

  /** Without redelivery each signal is held by one consumer, ever, and its key is won at most once. */
  ghost predicate HandedOutOnce(w: World) {
    && (forall k :: k in w.consumers ==> w.consumers[k].id in w.received)
    && (forall k, l :: k in w.consumers && l in w.consumers && k != l ==> w.consumers[k].id != w.consumers[l].id)
    && (forall i :: 0 <= i < |w.wins| ==> w.wins[i].id in w.received)
    && (forall i, j :: 0 <= i < j < |w.wins| ==> w.wins[i].id != w.wins[j].id)
    && (forall k, i :: k in w.consumers && w.consumers[k].Holding? && 0 <= i < |w.wins| ==>
          w.wins[i].id != w.consumers[k].id)
  }

  /** Consumer `k` moved on, left or joined with a signal nobody had. */
  lemma HandedOutKept(w: World, v: World, k: nat)
    requires HandedOutOnce(w) && w.received <= v.received
    requires forall l :: l in v.consumers && l != k ==> l in w.consumers && v.consumers[l] == w.consumers[l]
    requires k in v.consumers && k in w.consumers ==> v.consumers[k].id == w.consumers[k].id && !v.consumers[k].Holding?
    requires k in v.consumers && k !in w.consumers ==>
               v.consumers[k].id in v.received && v.consumers[k].id !in w.received
    requires v.wins == w.wins
             || (k in w.consumers && w.consumers[k].Holding?
                 && |v.wins| == |w.wins| + 1 && w.wins <= v.wins && v.wins[|w.wins|].id == w.consumers[k].id)
    ensures HandedOutOnce(v)
  {
  }

  lemma HandedOutStep(p: Params, w: World, step: Step)
    requires p.Sane() && !p.redelivery && HandedOutOnce(w) && Enabled(p, w, step)
    ensures HandedOutOnce(Do(p, w, step))
  {
    hide Approves, HandedOutOnce;
    if EngineMoves(step) {
      HandedOutKept(w, Do(p, w, step), step.k);
    } else {
      SchedulerLeavesEngine(p, w, step);
      SchedulerHandsOutNothing(p, w, step);
    }
  }

  lemma SchedulerHandsOutNothing(p: Params, w: World, step: Step)
    requires p.Sane() && HandedOutOnce(w) && Enabled(p, w, step) && !EngineMoves(step)
    ensures HandedOutOnce(Do(p, w, step))
  {
    hide Approves;
    SchedulerLeavesEngine(p, w, step);
    assert Do(p, w, step).received == w.received;
  }

  lemma {:induction false} RunHandsOutOnce(p: Params, w: World, steps: seq<Step>)
    requires p.Sane() && !p.redelivery && HandedOutOnce(w) && Exec(p, w, steps).Some?
    ensures HandedOutOnce(Exec(p, w, steps).value)
    decreases |steps|
  {
    hide HandedOutOnce, Do;
    if steps != [] {
      HandedOutStep(p, w, steps[0]);
      RunHandsOutOnce(p, Do(p, w, steps[0]), steps[1..]);
    }
  }

  lemma ApprovalsDifferWithoutRedelivery(p: Params, w: World, i: nat, j: nat)
    requires HandedOutOnce(w) && EngineInv(p, w)
    requires i < |w.approvals| && j < |w.approvals| && i != j
    ensures w.approvals[i].id != w.approvals[j].id
  {
    var a, b := w.approvals[i], w.approvals[j];
    assert ApprovalOk(p, w, a) && ApprovalOk(p, w, b) && a.win != b.win;
  }

  /** One approval per signal: because messages come once, or because a second win comes too late. */
  lemma ApprovalsNeverRepeat(p: Params, w: World)
    requires p.Sane() && (p.maxAge < DECISION_KEY_TTL || !p.redelivery) && Reachable(p, w)
    ensures forall i, j :: 0 <= i < |w.approvals| && 0 <= j < |w.approvals| && i != j ==>
                             w.approvals[i].id != w.approvals[j].id
  {
    ReachableInvariants(p, w);
    if !p.redelivery {
      var now: Time, steps: seq<Step> :| Exec(p, Start(now), steps) == Some(w);
      RunHandsOutOnce(p, Start(now), steps);
    }
    forall i, j | 0 <= i < |w.approvals| && 0 <= j < |w.approvals| && i != j
      ensures w.approvals[i].id != w.approvals[j].id
    {
      if p.redelivery {
        ApprovalsDiffer(p, w, i, j);
      } else {
        ApprovalsDifferWithoutRedelivery(p, w, i, j);
      }
    }
  }

  lemma SignalsActOnce(p: Params, w: World)
    requires p.Sane() && (p.maxAge < DECISION_KEY_TTL || !p.redelivery) && Reachable(p, w)
    ensures OncePerSignal(w)
  {
    ReachableInvariants(p, w);
    ApprovalsNeverRepeat(p, w);
    forall i, j | 0 <= i < j < |w.submissions| ensures w.submissions[i].id != w.submissions[j].id {
      assert SubmissionOk(w, w.submissions[i]) && SubmissionOk(w, w.submissions[j]);
    }
    forall i, j | 0 <= i < j < |w.decisions| && w.decisions[i].approval.Some? && w.decisions[j].approval.Some?
      ensures w.decisions[i].id != w.decisions[j].id
    {
      assert DecisionOk(w, w.decisions[i]) && DecisionOk(w, w.decisions[j]);
    }
  }

  /** End to end: a candle leads to at most one submission. */
  lemma OneSubmissionPerCandle(p: Params, w: World, i: nat, j: nat)
    requires p.Sane() && p.Lag() <= p.period && (p.maxAge < DECISION_KEY_TTL || !p.redelivery) && Reachable(p, w)
    requires i < j < |w.submissions|
    ensures w.submissions[i].id < |w.signals| && w.submissions[j].id < |w.signals|
    ensures var a, b := w.signals[w.submissions[i].id].view, w.signals[w.submissions[j].id].view;
            a.symbol != b.symbol || a.candleTs != b.candleTs
  {
    TimelyRowsDiffer(p, w);
    SignalsActOnce(p, w);
    ReachableInvariants(p, w);
    assert SubmissionOk(w, w.submissions[i]) && SubmissionOk(w, w.submissions[j]);
    assert ApprovalOk(p, w, w.approvals[w.submissions[i].approval]);
    assert ApprovalOk(p, w, w.approvals[w.submissions[j].approval]);
  }

  // ---------------------------------------------------------- building runs

  lemma {:induction false} ExecAppends(p: Params, w: World, steps: seq<Step>, step: Step)
    requires p.period > 0 && Exec(p, w, steps).Some? && Enabled(p, Exec(p, w, steps).value, step)
    ensures Exec(p, w, steps + [step]) == Some(Do(p, Exec(p, w, steps).value, step))
    decreases |steps|
  {
    if steps == [] {
      assert steps + [step] == [step];
    } else {
      assert (steps + [step])[1..] == steps[1..] + [step];
      ExecAppends(p, Do(p, w, steps[0]), steps[1..], step);
    }
  }

  lemma OneMore(p: Params, w: World, step: Step) returns (v: World)
    requires p.period > 0 && Reachable(p, w) && Enabled(p, w, step)
    ensures v == Do(p, w, step) && Reachable(p, v)
  {
    var now: Time, steps: seq<Step> :| Exec(p, Start(now), steps) == Some(w);
    ExecAppends(p, Start(now), steps, step);
    v := Do(p, w, step);
    assert Exec(p, Start(now), steps + [step]) == Some(v);
  }

  lemma Begin(p: Params, now: Time) returns (w: World)
    requires p.period > 0
    ensures w == Start(now) && Reachable(p, w)
  {
    w := Start(now);
    assert Exec(p, Start(now), []) == Some(w);
  }

  /** A BUY at the close of the candle opened at 0. */
  function FirstView(p: Params): SignalView {
    SignalView(0, BUY, 1.0, p.period, 1.0, 1.0)
  }

  const ACCOUNT0: AccountState := AccountState(1000.0, 1000.0, {}, 0.0, 0.0, 0, None, map[])
  const EXPECTANCY0: ExpectancyView := ExpectancyView(0, None)

  function Accepting(minutes: nat): RiskConfig {
    RiskConfig(0.01, 0.1, 0.5, 3, 0.05, 3, 0, 0.5, 1.0, minutes, 1.0, 0.01, 0.08, false, 0, 0.0)
  }

  /** A flat account approves the BUY while it is fresh. */
  lemma FirstBuyIsApproved(p: Params, minutes: nat, now: Time)
    requires now <= p.period + minutes * MINUTE
    ensures Approves(FirstView(p), ACCOUNT0, Accepting(minutes), now, false, false, EXPECTANCY0)
  {
    hide Times, Over, FirstViolation, PositionSize, ConfidenceScale;
    var view, config := FirstView(p), Accepting(minutes);
    assert StopDistance(1.0, 1.0, config) >= 0.01;
    SizeWithinClamps(1000.0, 1000.0, 1.0, 1.0, 1.0, config);
    CapsOfAThousand();
    EvaluateApprovedIff(view, ACCOUNT0, config, now, false, false, EXPECTANCY0);
    assert |{} + {view.symbol}| == 1;
  }

  lemma CapsOfAThousand()
    ensures Times(1000.0, 0.1) == 100.0 && Times(0.5, 1000.0) == 500.0
  {
  }

  /** One cycle goes all the way from the closed candle opened at 0 to a committed BUY row, and leaves. */
  lemma FirstRow(p: Params) returns (w: World)
    requires p.Sane()
    ensures Reachable(p, w) && w.now == p.period && w.locks == map[0 := p.period + CYCLE_LOCK_TTL]
    ensures w.candleKeys == map[Slot(0, 0) := 3 * p.period] && w.decisionKeys == map[]
    ensures w.cycles == map[0 := Cycle(0, p.period, Committed(0))] && w.consumers == map[]
    ensures w.signals == [Row(FirstView(p), 0)] && w.claims == [Claim(Slot(0, 0), p.period)]
    ensures w.stream == {} && w.received == {} && w.acked == {} && w.decisions == []
    ensures w.submissions == [] && w.approvals == [] && w.wins == []
  {
    hide Reachable, Approves;
    w := Begin(p, p.period);
    w := OneMore(p, w, TakeLock(0, 0));
    w := OneMore(p, w, Fetch(0, 0));
    w := OneMore(p, w, ClaimCandle(0));
    w := OneMore(p, w, Commit(0, FirstView(p)));
  }

  /** A fetch that answers just before the next close, claimed more than a period later, finds the key
      expired and makes a second row. */
  lemma LateClaimRepeatsRow(p: Params) returns (w: World)
    requires p.Sane() && p.Lag() > p.period
    ensures Reachable(p, w) && !OneRowPerCandle(w)
  {
    hide Reachable, Approves;
    w := FirstRow(p);
    w := OneMore(p, w, Leave(0));
    w := OneMore(p, w, Tick(2 * p.period - 1));
    w := OneMore(p, w, TakeLock(1, 0));
    w := OneMore(p, w, Fetch(1, 0));
    w := OneMore(p, w, Tick(3 * p.period));
    w := OneMore(p, w, ClaimCandle(1));
    w := OneMore(p, w, Commit(1, FirstView(p)));
    assert w.signals[0].view == w.signals[1].view;
  }

  /** One row per candle in every run, exactly when a claim cannot trail its fetch by more than a period,
      because of its own bound or of its cycle's; the lock plays no part. */
  lemma OneRowPerCandleIff(p: Params)
    requires p.Sane()
    ensures (forall w :: Reachable(p, w) ==> OneRowPerCandle(w)) <==> p.Lag() <= p.period
  {
    if p.Lag() <= p.period {
      forall w | Reachable(p, w) ensures OneRowPerCandle(w) {
        TimelyRowsDiffer(p, w);
      }
    } else {
      var w := LateClaimRepeatsRow(p);
    }
  }

  /** The row is published and a consumer wins its key. */
  lemma FirstKey(p: Params) returns (w: World)
    requires p.Sane()
    ensures Reachable(p, w) && w.now == p.period && w.decisionKeys == map[0 := p.period + DECISION_KEY_TTL]
    ensures w.cycles == map[] && w.consumers == map[0 := Keyed(0, Some(0))] && w.signals == [Row(FirstView(p), 0)]
    ensures w.stream == {0} && w.received == {0} && w.acked == {} && w.decisions == []
    ensures w.submissions == [] && w.approvals == [] && w.wins == [Win(0, p.period)]
  {
    hide Reachable, Approves;
    w := FirstRow(p);
    w := OneMore(p, w, Publish(0));
    w := OneMore(p, w, Leave(0));
    w := OneMore(p, w, Receive(0, 0));
    w := OneMore(p, w, TakeKey(0));
  }

  /** It sends the request and dies before committing or acknowledging. */
  lemma FirstRequest(p: Params) returns (w: World)
    requires p.Sane() && p.maxAge >= 0
    ensures Reachable(p, w) && w.now == p.period && w.decisionKeys == map[0 := p.period + DECISION_KEY_TTL]
    ensures w.cycles == map[] && w.consumers == map[] && w.signals == [Row(FirstView(p), 0)]
    ensures w.stream == {0} && w.received == {0} && w.acked == {} && w.decisions == []
    ensures w.submissions == [Submission(0, 0)] && |w.approvals| == |w.wins| == 1
  {
    hide Reachable, Approves;
    FirstBuyIsApproved(p, 0, p.period);
    w := FirstKey(p);
    w := OneMore(p, w, Judge(0, ACCOUNT0, Accepting(0), false, EXPECTANCY0));
    assert w.consumers == map[0 := Judged(0, Some(0))];
    w := OneMore(p, w, Submit(0));
    w := OneMore(p, w, Drop(0));
  }

  /** Redelivered after its key expired, the signal's key is won a second time. */
  lemma SecondKey(p: Params) returns (w: World)
    requires p.Sane() && p.maxAge >= DECISION_KEY_TTL && p.redelivery
    ensures Reachable(p, w) && w.now == p.period + DECISION_KEY_TTL
    ensures w.consumers == map[1 := Keyed(0, Some(1))] && w.signals == [Row(FirstView(p), 0)]
    ensures w.submissions == [Submission(0, 0)] && |w.approvals| == 1
  {
    hide Reachable, Approves;
    w := FirstRequest(p);
    w := OneMore(p, w, Tick(p.period + DECISION_KEY_TTL));
    w := OneMore(p, w, Receive(1, 0));
    w := OneMore(p, w, TakeKey(1));
  }

  /** A signal old enough to be accepted is then sent a second time. */
  lemma ExpiredKeyRepeatsSubmission(p: Params) returns (w: World)
    requires p.Sane() && p.maxAge >= DECISION_KEY_TTL && p.redelivery
    ensures Reachable(p, w) && !OncePerSignal(w)
  {
    hide Reachable, Approves;
    FirstBuyIsApproved(p, 1440, p.period + DECISION_KEY_TTL);
    w := SecondKey(p);
    w := OneMore(p, w, Judge(1, ACCOUNT0, Accepting(1440), false, EXPECTANCY0));
    assert w.consumers == map[1 := Judged(0, Some(1))];
    w := OneMore(p, w, Submit(1));
    assert w.submissions[0].id == w.submissions[1].id;
  }

  /** At most one approval and one submission per signal in every run, key expiry included, exactly when no
      message is redelivered or the largest accepted signal age is below the key's lifetime. */
  lemma OncePerSignalIff(p: Params)
    requires p.Sane()
    ensures (forall w :: Reachable(p, w) ==> OncePerSignal(w)) <==>
              !p.redelivery || p.maxAge < 24 * 60 * 60 * 1_000_000
  {
    if !p.redelivery || p.maxAge < DECISION_KEY_TTL {
      forall w | Reachable(p, w) ensures OncePerSignal(w) {
        SignalsActOnce(p, w);
      }
    } else {
      var w := ExpiredKeyRepeatsSubmission(p);
    }
  }

  // --------------------------------------------------------------- the lock

  /** No two cycles of one pair run side by side. */
  ghost predicate LockExcludes(w: World) {
    forall c, d :: c in w.cycles && d in w.cycles && c != d ==> w.cycles[c].symbol != w.cycles[d].symbol
  }

  /** Every running cycle's lock is there and outlives it. */
  ghost predicate LocksHeld(w: World) {
    && LockExcludes(w)
    && forall c :: c in w.cycles ==>
         && w.cycles[c].symbol in w.locks && w.cycles[c].since <= w.now
         && w.cycles[c].since + CYCLE_LOCK_TTL <= w.locks[w.cycles[c].symbol]
  }

  /** Cycle `c` moved on or ended; only its own lock may have gone, and only if it ended. */
  lemma LocksKept(w: World, v: World, c: nat)
    requires LocksHeld(w) && c in w.cycles && w.now <= v.now
    requires forall d :: d in v.cycles ==>
               d in w.cycles && v.cycles[d].symbol == w.cycles[d].symbol && v.cycles[d].since == w.cycles[d].since
    requires v.locks == w.locks || (v.locks == w.locks - {w.cycles[c].symbol} && c !in v.cycles)
    ensures LocksHeld(v)
  {
  }

  /** A lock that is free belongs to no running cycle. */
  lemma LockTaken(p: Params, w: World, c: nat, symbol: Symbol)
    requires p.Sane() && p.hold < CYCLE_LOCK_TTL && CyclesInv(p, w) && LocksHeld(w)
    requires Enabled(p, w, TakeLock(c, symbol))
    ensures LocksHeld(Do(p, w, TakeLock(c, symbol)))
  {
    hide Approves;
    forall d | d in w.cycles ensures w.cycles[d].symbol != symbol {
      assert CycleOk(p, w, w.cycles[d]);
    }
  }

  lemma LocksHeldStep(p: Params, w: World, step: Step)
    requires p.Sane() && p.hold < CYCLE_LOCK_TTL && SchedulerInv(p, w) && LocksHeld(w) && Enabled(p, w, step)
    ensures LocksHeld(Do(p, w, step))
  {
    hide Approves, NewestClosed, ClaimsInv, RowsInv, CyclesInv, LocksHeld;
    if EngineMoves(step) || step.Tick? {
      EngineKeepsLocks(p, w, step);
      SameLocks(w, Do(p, w, step));
    } else if step.TakeLock? {
      LockTaken(p, w, step.c, step.symbol);
    } else {
      LocksKept(w, Do(p, w, step), step.c);
    }
  }

  lemma SameLocks(w: World, v: World)
    requires LocksHeld(w) && v.locks == w.locks && v.cycles == w.cycles && w.now <= v.now
    ensures LocksHeld(v)
  {
  }

  lemma EngineKeepsLocks(p: Params, w: World, step: Step)
    requires p.Sane() && Enabled(p, w, step) && (EngineMoves(step) || step.Tick?)
    ensures var v := Do(p, w, step); v.locks == w.locks && v.cycles == w.cycles && w.now <= v.now
  {
    hide Approves;
  }

  lemma {:induction false} RunHoldsLocks(p: Params, w: World, steps: seq<Step>)
    requires p.Sane() && p.hold < CYCLE_LOCK_TTL && SchedulerInv(p, w) && LocksHeld(w) && Exec(p, w, steps).Some?
    ensures LocksHeld(Exec(p, w, steps).value)
    decreases |steps|
  {
    hide Do, SchedulerInv, LocksHeld;
    if steps != [] {
      SchedulerStep(p, w, steps[0]);
      LocksHeldStep(p, w, steps[0]);
      RunHoldsLocks(p, Do(p, w, steps[0]), steps[1..]);
    }
  }

  /** Once a lock expires, a second cycle of its pair starts beside the first. */
  lemma ExpiredLockAdmitsTwoCycles(p: Params) returns (w: World)
    requires p.Sane() && p.hold >= CYCLE_LOCK_TTL
    ensures Reachable(p, w) && !LockExcludes(w)
  {
    hide Reachable, Approves;
    w := Begin(p, 0);
    w := OneMore(p, w, TakeLock(0, 0));
    w := OneMore(p, w, Tick(CYCLE_LOCK_TTL));
    w := OneMore(p, w, TakeLock(1, 0));
    assert w.cycles[0].symbol == w.cycles[1].symbol;
  }

  /** The lock excludes in every run exactly when every cycle is over before its lock expires. */
  lemma LockExcludesIff(p: Params)
    requires p.Sane()
    ensures (forall w :: Reachable(p, w) ==> LockExcludes(w)) <==> p.hold < 5 * 60 * 1_000_000
  {
    if p.hold < CYCLE_LOCK_TTL {
      forall w | Reachable(p, w) ensures LockExcludes(w) {
        var now: Time, steps: seq<Step> :| Exec(p, Start(now), steps) == Some(w);
        RunHoldsLocks(p, Start(now), steps);
      }
    } else {
      var w := ExpiredLockAdmitsTwoCycles(p);
    }
  }

  // ------------------------------------------------------------ audit trail

  predicate WasSent(w: World, approval: nat) {
    exists i :: 0 <= i < |w.submissions| && w.submissions[i].approval == approval
  }

  predicate EntryDecision(w: World, d: Decision) {
    d.approval.Some? && d.id < |w.signals| && w.signals[d.id].view.action != SELL
  }

  /** Whatever is recorded as an approved entry was sent to the exchange first. */
  ghost predicate Audited(w: World) {
    && (forall k :: k in w.consumers && w.consumers[k].Sent? && w.consumers[k].approval.Some? ==>
          WasSent(w, w.consumers[k].approval.value))
    && (forall i :: 0 <= i < |w.decisions| && EntryDecision(w, w.decisions[i]) ==>
          WasSent(w, w.decisions[i].approval.value))
  }

  lemma StillSent(w: World, v: World, approval: nat)
    requires WasSent(w, approval) && w.submissions <= v.submissions
    ensures WasSent(v, approval)
  {
    var i :| 0 <= i < |w.submissions| && w.submissions[i].approval == approval;
    assert v.submissions[i].approval == approval;
  }

  /** Consumers either stayed, left the Sent stage, or sent just now; decisions are old or just sent. */
  lemma AuditedKept(w: World, v: World)
    requires Audited(w) && w.submissions <= v.submissions && w.signals <= v.signals
    requires forall k :: k in v.consumers && v.consumers[k].Sent? && v.consumers[k].approval.Some? ==>
               (k in w.consumers && v.consumers[k] == w.consumers[k]) || WasSent(v, v.consumers[k].approval.value)
    requires forall i :: 0 <= i < |w.decisions| ==> w.decisions[i].id < |w.signals|
    requires w.decisions <= v.decisions
    requires forall i :: |w.decisions| <= i < |v.decisions| && EntryDecision(v, v.decisions[i]) ==>
               WasSent(v, v.decisions[i].approval.value)
    ensures Audited(v)
  {
    forall k | k in v.consumers && v.consumers[k].Sent? && v.consumers[k].approval.Some?
      ensures WasSent(v, v.consumers[k].approval.value)
    {
      if k in w.consumers && v.consumers[k] == w.consumers[k] {
        StillSent(w, v, v.consumers[k].approval.value);
      }
    }
    forall i | 0 <= i < |v.decisions| && EntryDecision(v, v.decisions[i])
      ensures WasSent(v, v.decisions[i].approval.value)
    {
      if i < |w.decisions| {
        assert EntryDecision(w, w.decisions[i]);
        StillSent(w, v, v.decisions[i].approval.value);
      }
    }
  }

  ghost predicate DecisionsCommitted(w: World) {
    && (forall i :: 0 <= i < |w.decisions| ==> w.decisions[i].id < |w.signals|)
  }

  lemma SenderWasSent(w: World, k: nat)
    requires Audited(w) && k in w.consumers && w.consumers[k].Sent? && w.consumers[k].approval.Some?
    ensures WasSent(w, w.consumers[k].approval.value)
  {
  }

  lemma AuditedRecord(p: Params, w: World, k: nat)
    requires p.Sane() && Audited(w) && DecisionsCommitted(w) && Enabled(p, w, Record(k))
    ensures Audited(Do(p, w, Record(k))) && DecisionsCommitted(Do(p, w, Record(k)))
  {
    hide Audited;
    var v := Do(p, w, Record(k));
    if w.consumers[k].Sent? && w.consumers[k].approval.Some? {
      SenderWasSent(w, k);
      StillSent(w, v, w.consumers[k].approval.value);
    }
    AuditedKept(w, v);
  }

  lemma AuditedStep(p: Params, w: World, step: Step)
    requires p.Sane() && Audited(w) && DecisionsCommitted(w) && Enabled(p, w, step)
    ensures Audited(Do(p, w, step)) && DecisionsCommitted(Do(p, w, step))
  {
    hide Audited, Approves;
    var v := Do(p, w, step);
    if step.Submit? {
      assert v.submissions[|w.submissions|].approval == w.consumers[step.k].approval.value;
      AuditedKept(w, v);
    } else if step.Record? {
      AuditedRecord(p, w, step.k);
    } else if EngineMoves(step) {
      AuditedKept(w, v);
    } else {
      SchedulerLeavesEngine(p, w, step);
      AuditedKept(w, v);
    }
  }

  lemma {:induction false} RunStaysAudited(p: Params, w: World, steps: seq<Step>)
    requires p.Sane() && Audited(w) && DecisionsCommitted(w) && Exec(p, w, steps).Some?
    ensures Audited(Exec(p, w, steps).value)
    decreases |steps|
  {
    if steps != [] {
      AuditedStep(p, w, steps[0]);
      RunStaysAudited(p, Do(p, w, steps[0]), steps[1..]);
    }
  }

  /** In every run an approved entry on record was sent to the exchange. */
  lemma RecordedEntriesWereSent(p: Params, w: World, i: nat)
    requires p.Sane() && Reachable(p, w) && i < |w.decisions| && EntryDecision(w, w.decisions[i])
    ensures WasSent(w, w.decisions[i].approval.value)
  {
    var now: Time, steps: seq<Step> :| Exec(p, Start(now), steps) == Some(w);
    RunStaysAudited(p, Start(now), steps);
  }

  // ------------------------------------------------- sent but not recorded

  predicate OnRecord(w: World, approval: nat) {
    exists i :: 0 <= i < |w.decisions| && w.decisions[i].approval == Some(approval)
  }

  /** Every approval sent to the exchange is on record. */
  ghost predicate EverySubmissionRecorded(w: World) {
    forall i :: 0 <= i < |w.submissions| ==> OnRecord(w, w.submissions[i].approval)
  }

  predicate InFlight(w: World, approval: nat) {
    exists k :: k in w.consumers && w.consumers[k] == Sent(w.consumers[k].id, Some(approval))
  }

  /** A consumer dies with its request sent and its decision not committed. */
  predicate DropsSent(w: World, step: Step) {
    step.Drop? && step.k in w.consumers && w.consumers[step.k].Sent?
  }

  /** Some step of the run does. */
  ghost predicate LosesDecision(p: Params, w: World, steps: seq<Step>)
    requires p.period > 0 && Exec(p, w, steps).Some?
    decreases |steps|
  {
    steps != [] && (DropsSent(w, steps[0]) || LosesDecision(p, Do(p, w, steps[0]), steps[1..]))
  }

  /** Every submission is on record or about to be. */
  ghost predicate Accounted(w: World) {
    && (forall k :: k in w.consumers && w.consumers[k].Sent? ==> w.consumers[k].approval.Some?)
    && (forall i :: 0 <= i < |w.submissions| ==>
          OnRecord(w, w.submissions[i].approval) || InFlight(w, w.submissions[i].approval))
  }

  /** Some submission is not on record, and nobody is left to record it. */
  ghost predicate Lost(w: World, approval: nat) {
    && WasSent(w, approval) && approval < |w.approvals| && !OnRecord(w, approval)
    && forall k :: k in w.consumers ==> Carries(w.consumers[k]) != Some(approval)
  }

  lemma StillOnRecord(w: World, v: World, approval: nat)
    requires OnRecord(w, approval) && w.decisions <= v.decisions
    ensures OnRecord(v, approval)
  {
    var i :| 0 <= i < |w.decisions| && w.decisions[i].approval == Some(approval);
    assert v.decisions[i].approval == Some(approval);
  }

  /** Consumer `k` moved: if it was sending, it recorded; what it sent is in its hands. */
  lemma AccountedKept(w: World, v: World, k: nat)
    requires Accounted(w) && w.submissions <= v.submissions && w.decisions <= v.decisions
    requires forall l :: l in w.consumers && l != k ==> l in v.consumers && v.consumers[l] == w.consumers[l]
    requires forall l :: l in v.consumers && l != k ==> l in w.consumers
    requires k in v.consumers && v.consumers[k].Sent? ==> v.consumers[k].approval.Some?
    requires k in w.consumers && w.consumers[k].Sent? && w.consumers[k].approval.Some? ==>
               OnRecord(v, w.consumers[k].approval.value)
    requires forall i :: |w.submissions| <= i < |v.submissions| ==> InFlight(v, v.submissions[i].approval)
    ensures Accounted(v)
  {
    forall i | 0 <= i < |v.submissions|
      ensures OnRecord(v, v.submissions[i].approval) || InFlight(v, v.submissions[i].approval)
    {
      if i < |w.submissions| {
        var a := w.submissions[i].approval;
        if OnRecord(w, a) {
          StillOnRecord(w, v, a);
        } else {
          var l :| l in w.consumers && w.consumers[l] == Sent(w.consumers[l].id, Some(a));
          if l != k {
            assert v.consumers[l] == Sent(v.consumers[l].id, Some(a));
          }
        }
      }
    }
  }

  lemma AccountedStep(p: Params, w: World, step: Step)
    requires p.Sane() && Accounted(w) && Enabled(p, w, step) && !DropsSent(w, step)
    ensures Accounted(Do(p, w, step))
  {
    hide Approves, OnRecord, InFlight, Accounted;
    var v := Do(p, w, step);
    if step.Submit? {
      SubmitIsInFlight(p, w, step.k);
      AccountedKept(w, v, step.k);
    } else if step.Record? {
      RecordIsOnRecord(p, w, step.k);
      AccountedKept(w, v, step.k);
    } else if EngineMoves(step) {
      AccountedKept(w, v, step.k);
    } else {
      SchedulerLeavesEngine(p, w, step);
      NothingSent(w, v);
    }
  }

  lemma SubmitIsInFlight(p: Params, w: World, k: nat)
    requires p.Sane() && Enabled(p, w, Submit(k))
    ensures InFlight(Do(p, w, Submit(k)), w.consumers[k].approval.value)
  {
    var v := Do(p, w, Submit(k));
    assert v.consumers[k] == Sent(v.consumers[k].id, Some(w.consumers[k].approval.value));
  }

  lemma RecordIsOnRecord(p: Params, w: World, k: nat)
    requires p.Sane() && Enabled(p, w, Record(k))
    ensures w.consumers[k].approval.Some? ==> OnRecord(Do(p, w, Record(k)), w.consumers[k].approval.value)
  {
    var v := Do(p, w, Record(k));
    assert v.decisions[|w.decisions|].approval == w.consumers[k].approval;
  }

  lemma NothingSent(w: World, v: World)
    requires Accounted(w) && v.consumers == w.consumers && v.submissions == w.submissions && v.decisions == w.decisions
    ensures Accounted(v)
  {
  }

  /** The drop of a consumer that sent loses its approval: nobody else carries it. */
  lemma DropLoses(p: Params, w: World, k: nat)
    requires p.Sane() && EngineInv(p, w) && Audited(w) && Accounted(w)
    requires Enabled(p, w, Drop(k)) && w.consumers[k].Sent?
    ensures Lost(Do(p, w, Drop(k)), w.consumers[k].approval.value)
  {
    var v := Do(p, w, Drop(k));
    assert ConsumerOk(w, w.consumers[k]);
    forall l | l in v.consumers ensures Carries(v.consumers[l]) != w.consumers[k].approval {
      assert Apart(w.consumers[k], w.consumers[l]);
    }
    StillSent(w, v, w.consumers[k].approval.value);
  }

  lemma LostStep(p: Params, w: World, step: Step, approval: nat)
    requires p.Sane() && Lost(w, approval) && Enabled(p, w, step)
    ensures Lost(Do(p, w, step), approval)
  {
    hide Approves, WasSent;
    var v := Do(p, w, step);
    if EngineMoves(step) {
      EngineOnlyAppends(p, w, step);
    } else {
      SchedulerLeavesEngine(p, w, step);
    }
    StillSent(w, v, approval);
  }

  lemma EngineOnlyAppends(p: Params, w: World, step: Step)
    requires p.Sane() && Enabled(p, w, step) && EngineMoves(step)
    ensures w.submissions <= Do(p, w, step).submissions
  {
    hide Approves;
  }

  lemma {:induction false} LostForGood(p: Params, w: World, steps: seq<Step>, approval: nat)
    requires p.Sane() && Lost(w, approval) && Exec(p, w, steps).Some?
    ensures Lost(Exec(p, w, steps).value, approval)
    decreases |steps|
  {
    hide Lost, Do;
    if steps != [] {
      LostStep(p, w, steps[0], approval);
      LostForGood(p, Do(p, w, steps[0]), steps[1..], approval);
    }
  }

  lemma {:induction false} RunAccountsOrLoses(p: Params, w: World, steps: seq<Step>)
    requires p.Sane() && SchedulerInv(p, w) && EngineInv(p, w) && Audited(w) && DecisionsCommitted(w) && Accounted(w)
    requires Exec(p, w, steps).Some?
    ensures var v := Exec(p, w, steps).value;
            if LosesDecision(p, w, steps) then exists approval: nat :: Lost(v, approval) else Accounted(v)
    decreases |steps|
  {
    hide Do, SchedulerInv, EngineInv, Audited, DecisionsCommitted, Accounted, Lost, DropsSent;
    if steps != [] {
      var step := steps[0];
      if DropsSent(w, step) {
        SentDropLoses(p, w, step);
        LostForGood(p, Do(p, w, step), steps[1..], w.consumers[step.k].approval.value);
      } else {
        SchedulerStep(p, w, step);
        EngineStep(p, w, step);
        AuditedStep(p, w, step);
        AccountedStep(p, w, step);
        RunAccountsOrLoses(p, Do(p, w, step), steps[1..]);
      }
    }
  }

  lemma SentDropLoses(p: Params, w: World, step: Step)
    requires p.Sane() && EngineInv(p, w) && Audited(w) && Accounted(w) && Enabled(p, w, step) && DropsSent(w, step)
    ensures step.Drop? && step.k in w.consumers && w.consumers[step.k].Sent? && w.consumers[step.k].approval.Some?
    ensures Lost(Do(p, w, step), w.consumers[step.k].approval.value)
  {
    DropLoses(p, w, step.k);
  }

  /** Once no consumer is at work, every submission's approval is on record exactly when no consumer died
      between its request and its commit during the run. */
  lemma SubmissionsRecordedIff(p: Params, now: Time, steps: seq<Step>)
    requires p.Sane() && Exec(p, Start(now), steps).Some? && Exec(p, Start(now), steps).value.consumers == map[]
    ensures EverySubmissionRecorded(Exec(p, Start(now), steps).value) <==> !LosesDecision(p, Start(now), steps)
  {
    var w := Exec(p, Start(now), steps).value;
    RunAccountsOrLoses(p, Start(now), steps);
    if LosesDecision(p, Start(now), steps) {
      var approval: nat :| Lost(w, approval);
      var i :| 0 <= i < |w.submissions| && w.submissions[i].approval == approval;
    }
  }

  /** What the consumer loop leaves as written: a BUY sent to the exchange with no decision on record, and a
      message nobody will be handed again. */
  lemma SentWithoutDecision(p: Params) returns (w: World)
    requires p.Sane() && p.maxAge >= 0 && !p.redelivery
    ensures Reachable(p, w) && w.consumers == map[] && w.decisions == []
    ensures w.submissions == [Submission(0, 0)] && w.signals == [Row(FirstView(p), 0)] && FirstView(p).action == BUY
    ensures forall k :: !Enabled(p, w, Receive(k, 0))
  {
    w := FirstRequest(p);
  }

  /** And with redelivery: its only decision on record is the rejection of the redelivered duplicate. */
  lemma SentButRecordedAsRejected(p: Params) returns (w: World)
    requires p.Sane() && p.maxAge >= 0 && p.redelivery
    ensures Reachable(p, w) && w.consumers == map[] && w.acked == {0}
    ensures w.submissions == [Submission(0, 0)] && w.decisions == [Decision(0, None)]
    ensures w.signals == [Row(FirstView(p), 0)] && FirstView(p).action == BUY
  {
    hide Reachable, Approves;
    w := FirstRequest(p);
    w := OneMore(p, w, Receive(1, 0));
    w := OneMore(p, w, TakeKey(1));
    assert w.consumers == map[1 := Keyed(0, None)];
    DuplicateIsRejected(p);
    w := OneMore(p, w, Judge(1, ACCOUNT0, Accepting(0), false, EXPECTANCY0));
    assert w.consumers == map[1 := Judged(0, None)];
    w := OneMore(p, w, Record(1));
    w := OneMore(p, w, Ack(1));
  }

  lemma DuplicateIsRejected(p: Params)
    ensures !Approves(FirstView(p), ACCOUNT0, Accepting(0), p.period, false, true, EXPECTANCY0)
  {
    if Approves(FirstView(p), ACCOUNT0, Accepting(0), p.period, false, true, EXPECTANCY0) {
      ApprovalNeeds(FirstView(p), ACCOUNT0, Accepting(0), p.period, false, true, EXPECTANCY0);
    }
  }
}
