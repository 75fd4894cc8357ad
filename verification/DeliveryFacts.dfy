/** What every run of the delivery protocol keeps, and what that says about signals and submissions. */
module DeliveryFacts {
  import opened Common
  import opened DeliveryModel
  import opened Risk
  import opened RiskFacts

  // -------------------------------------------------------------- scheduler

  predicate ClaimOk(p: Params, w: World, claim: Claim) {
    && claim.slot.open + p.period <= claim.at <= w.now
    && claim.at < claim.slot.open + 2 * p.period + p.Lag()
    && claim.slot in w.candleKeys && claim.at + 2 * p.period <= w.candleKeys[claim.slot]
  }

  /** Two claims of one candle are a whole key lifetime apart. */
  predicate Spaced(p: Params, a: Claim, b: Claim) {
    a.slot == b.slot ==> a.at + 2 * p.period <= b.at
  }

  predicate RowOk(p: Params, w: World, row: Row) {
    && row.claim < |w.claims|
    && row.view.symbol == w.claims[row.claim].slot.symbol
    && row.view.candleTs == w.claims[row.claim].slot.open + p.period
  }

  predicate CycleOk(p: Params, w: World, cycle: Cycle) {
    && cycle.since <= w.now <= cycle.since + p.hold
    && match cycle.stage
       case Fetched(slot, at) =>
         slot.open + p.period <= at < slot.open + 2 * p.period && cycle.since <= at <= w.now
       case Claimed(claim) => claim < |w.claims| && forall i :: 0 <= i < |w.signals| ==> w.signals[i].claim != claim
       case Committed(id) => id < |w.signals| && id !in w.stream
       case _ => true
  }

  ghost predicate ClaimsInv(p: Params, w: World) {
    && (forall i :: 0 <= i < |w.claims| ==> ClaimOk(p, w, w.claims[i]))
    && (forall i, j :: 0 <= i < j < |w.claims| ==> Spaced(p, w.claims[i], w.claims[j]))
  }

  ghost predicate RowsInv(p: Params, w: World) {
    && (forall i :: 0 <= i < |w.signals| ==> RowOk(p, w, w.signals[i]))
    && (forall i, j :: 0 <= i < j < |w.signals| ==> w.signals[i].claim != w.signals[j].claim)
  }

  ghost predicate CyclesInv(p: Params, w: World) {
    && (forall c :: c in w.cycles ==> CycleOk(p, w, w.cycles[c]))
    && (forall c, d :: c in w.cycles && d in w.cycles && c != d ==> OwnWork(w.cycles[c].stage, w.cycles[d].stage))
  }

  /** No two cycles hold the same claim or are about to publish the same row. */
  predicate OwnWork(a: Stage, b: Stage) {
    a.Claimed? || a.Committed? ==> a != b
  }

  /** The scheduler's half: claims are timely and spaced, each claim makes at most one row, and only
      committed rows are on the stream. */
  ghost predicate SchedulerInv(p: Params, w: World) {
    && ClaimsInv(p, w) && RowsInv(p, w) && CyclesInv(p, w)
    && (forall id :: id in w.stream ==> id < |w.signals|)
  }

  lemma ClaimsKept(p: Params, w: World, v: World)
    requires ClaimsInv(p, w)
    requires v.claims == w.claims && v.candleKeys == w.candleKeys && w.now <= v.now
    ensures ClaimsInv(p, v)
  {
    forall i | 0 <= i < |v.claims| ensures ClaimOk(p, v, v.claims[i]) {
      assert ClaimOk(p, w, w.claims[i]);
    }
  }

  /** A key that is gone was set at least its lifetime ago. */
  lemma ClaimsGrow(p: Params, w: World, v: World, slot: Slot)
    requires p.Sane() && ClaimsInv(p, w) && !Live(w.candleKeys, slot, w.now)
    requires slot.open + p.period <= w.now < slot.open + 2 * p.period + p.Lag()
    requires v.claims == w.claims + [Claim(slot, w.now)] && v.now == w.now
    requires v.candleKeys == w.candleKeys[slot := w.now + 2 * p.period]
    ensures ClaimsInv(p, v)
  {
    forall i | 0 <= i < |w.claims| ensures ClaimOk(p, v, w.claims[i]) && Spaced(p, w.claims[i], Claim(slot, w.now)) {
      assert ClaimOk(p, w, w.claims[i]);
    }
    forall i, j | 0 <= i < j < |v.claims| ensures Spaced(p, v.claims[i], v.claims[j]) {
      assert v.claims[i] == w.claims[i];
      assert j < |w.claims| ==> Spaced(p, w.claims[i], w.claims[j]);
    }
  }

  lemma RowsKept(p: Params, w: World, v: World)
    requires RowsInv(p, w) && v.signals == w.signals && w.claims <= v.claims
    ensures RowsInv(p, v)
  {
    forall i | 0 <= i < |v.signals| ensures RowOk(p, v, v.signals[i]) {
      assert RowOk(p, w, w.signals[i]);
    }
  }

  lemma RowsGrow(p: Params, w: World, v: World, row: Row)
    requires RowsInv(p, w) && RowOk(p, w, row) && v.signals == w.signals + [row] && v.claims == w.claims
    requires forall i :: 0 <= i < |w.signals| ==> w.signals[i].claim != row.claim
    ensures RowsInv(p, v)
  {
    forall i | 0 <= i < |v.signals| ensures RowOk(p, v, v.signals[i]) {
      assert i < |w.signals| ==> RowOk(p, w, w.signals[i]);
    }
  }

  /** Only cycle `c` moved, to a stage that is fine and, if a claim or a row, one of its own; what was
      published meanwhile was its row. */
  lemma CyclesKept(p: Params, w: World, v: World, c: nat)
    requires CyclesInv(p, w) && v.signals == w.signals && w.claims <= v.claims && w.now == v.now
    requires forall d :: d in v.cycles && d != c ==> d in w.cycles && v.cycles[d] == w.cycles[d]
    requires c in v.cycles ==> CycleOk(p, v, v.cycles[c])
    requires c in v.cycles && v.cycles[c].stage.Claimed? ==> v.cycles[c].stage.claim >= |w.claims|
    requires c in v.cycles ==> !v.cycles[c].stage.Committed?
    requires forall id :: id in v.stream && id !in w.stream ==> c in w.cycles && w.cycles[c].stage == Committed(id)
    ensures CyclesInv(p, v)
  {
    forall d | d in v.cycles ensures CycleOk(p, v, v.cycles[d]) {
      if d != c {
        assert CycleOk(p, w, w.cycles[d]);
        assert c in w.cycles ==> OwnWork(w.cycles[d].stage, w.cycles[c].stage);
      }
    }
    forall d, e | d in v.cycles && e in v.cycles && d != e ensures OwnWork(v.cycles[d].stage, v.cycles[e].stage) {
      assert d in w.cycles && e in w.cycles ==> OwnWork(w.cycles[d].stage, w.cycles[e].stage);
      assert d != c ==> CycleOk(p, w, w.cycles[d]);
      assert e != c ==> CycleOk(p, w, w.cycles[e]);
    }
  }

  lemma ClaimStep(p: Params, w: World, c: nat)
    requires p.Sane() && SchedulerInv(p, w) && Enabled(p, w, ClaimCandle(c))
    ensures SchedulerInv(p, Do(p, w, ClaimCandle(c)))
  {
    var v := Do(p, w, ClaimCandle(c));
    var slot := w.cycles[c].stage.slot;
    assert CycleOk(p, w, w.cycles[c]);
    if Live(w.candleKeys, slot, w.now) {
      ClaimsKept(p, w, v);
    } else {
      ClaimsGrow(p, w, v, slot);
      forall i | 0 <= i < |w.signals| ensures w.signals[i].claim != |w.claims| {
        assert RowOk(p, w, w.signals[i]);
      }
    }
    RowsKept(p, w, v);
    CyclesKept(p, w, v, c);
  }

  lemma CommitStep(p: Params, w: World, c: nat, view: SignalView)
    requires p.Sane() && SchedulerInv(p, w) && Enabled(p, w, Commit(c, view))
    ensures SchedulerInv(p, Do(p, w, Commit(c, view)))
  {
    var v := Do(p, w, Commit(c, view));
    assert CycleOk(p, w, w.cycles[c]);
    ClaimsKept(p, w, v);
    RowsGrow(p, w, v, Row(view, w.cycles[c].stage.claim));
    forall d | d in v.cycles ensures CycleOk(p, v, v.cycles[d]) {
      assert CycleOk(p, w, w.cycles[d]);
      assert d != c ==> OwnWork(w.cycles[d].stage, w.cycles[c].stage);
    }
    forall d, e | d in v.cycles && e in v.cycles && d != e ensures OwnWork(v.cycles[d].stage, v.cycles[e].stage) {
      assert CycleOk(p, w, w.cycles[d]) && CycleOk(p, w, w.cycles[e]);
      assert OwnWork(w.cycles[d].stage, w.cycles[e].stage);
    }
  }

  predicate SchedulerMoves(step: Step) {
    step.TakeLock? || step.Fetch? || step.Publish? || step.Leave? || step.Crash?
  }

  lemma CycleStep(p: Params, w: World, step: Step)
    requires p.Sane() && SchedulerInv(p, w) && Enabled(p, w, step) && SchedulerMoves(step)
    ensures SchedulerInv(p, Do(p, w, step))
  {
    var v := Do(p, w, step);
    ClaimsKept(p, w, v);
    RowsKept(p, w, v);
    assert step.c in w.cycles ==> CycleOk(p, w, w.cycles[step.c]);
    CyclesKept(p, w, v, step.c);
  }

  lemma SchedulerStep(p: Params, w: World, step: Step)
    requires p.Sane() && SchedulerInv(p, w) && Enabled(p, w, step)
    ensures SchedulerInv(p, Do(p, w, step))
  {
    if step.ClaimCandle? {
      ClaimStep(p, w, step.c);
    } else if step.Commit? {
      CommitStep(p, w, step.c, step.view);
    } else if SchedulerMoves(step) {
      CycleStep(p, w, step);
    } else {
      EngineLeavesScheduler(p, w, step);
      ClaimsKept(p, w, Do(p, w, step));
      RowsKept(p, w, Do(p, w, step));
      CyclesUntouched(p, w, Do(p, w, step));
    }
  }

  predicate SameScheduler(p: Params, w: World, v: World) {
    && v.claims == w.claims && v.candleKeys == w.candleKeys && v.signals == w.signals && v.cycles == w.cycles
    && v.stream == w.stream && w.now <= v.now
    && (v.now == w.now || forall c :: c in w.cycles ==> v.now <= w.cycles[c].since + p.hold)
  }

  lemma EngineLeavesScheduler(p: Params, w: World, step: Step)
    requires p.Sane() && Enabled(p, w, step) && !SchedulerMoves(step) && !step.ClaimCandle? && !step.Commit?
    ensures SameScheduler(p, w, Do(p, w, step))
  {
    if step.TakeKey? || step.Judge? || step.Submit? || step.Record? || step.BalanceDown? {
      ActingLeavesScheduler(p, w, step);
    }
  }

  lemma ActingLeavesScheduler(p: Params, w: World, step: Step)
    requires p.Sane() && Enabled(p, w, step)
    requires step.TakeKey? || step.Judge? || step.Submit? || step.Record? || step.BalanceDown?
    ensures SameScheduler(p, w, Do(p, w, step))
  {
    hide Approves, NewestClosed, Live;
  }

  lemma CyclesUntouched(p: Params, w: World, v: World)
    requires CyclesInv(p, w) && SameScheduler(p, w, v)
    ensures CyclesInv(p, v)
  {
    forall c | c in v.cycles ensures CycleOk(p, v, v.cycles[c]) {
      assert CycleOk(p, w, w.cycles[c]);
    }
  }

  // ------------------------------------------------------------ risk engine

  /** Either evaluator approves only a first decision on a fresh signal. */
  lemma ApprovalNeeds(view: SignalView, account: AccountState, config: RiskConfig, now: Time, killswitch: bool,
                      duplicate: bool, expectancy: ExpectancyView)
    requires Approves(view, account, config, now, killswitch, duplicate, expectancy)
    ensures !duplicate && now <= view.candleTs + config.signalMaxAgeMinutes * MINUTE
  {
    if view.action == SELL {
      ExitApprovedIff(view, account, config, now, duplicate);
    } else {
      EvaluateApprovedIff(view, account, config, now, killswitch, duplicate, expectancy);
    }
  }

  predicate WinOk(w: World, win: Win) {
    && win.id < |w.signals| && w.signals[win.id].view.candleTs <= win.at <= w.now
    && win.id in w.decisionKeys && win.at + DECISION_KEY_TTL <= w.decisionKeys[win.id]
  }

  /** Two wins of one signal's key are a whole key lifetime apart. */
  predicate WinsSpaced(a: Win, b: Win) {
    a.id == b.id ==> a.at + DECISION_KEY_TTL <= b.at
  }

  predicate ApprovalOk(p: Params, w: World, a: Approval) {
    && a.win.Some? && a.win.value < |w.wins| && w.wins[a.win.value].id == a.id && a.id < |w.signals|
    && w.wins[a.win.value].at <= a.at <= w.signals[a.id].view.candleTs + p.maxAge
  }

  predicate ConsumerOk(w: World, consumer: Consumer) {
    && consumer.id in w.stream
    && match consumer
       case Keyed(id, Some(win)) =>
         win < |w.wins| && w.wins[win].id == id && forall a :: 0 <= a < |w.approvals| ==> w.approvals[a].win != Some(win)
       case Judged(id, Some(a)) =>
         && a < |w.approvals| && w.approvals[a].id == id
         && (forall i :: 0 <= i < |w.submissions| ==> w.submissions[i].approval != a)
         && (forall i :: 0 <= i < |w.decisions| ==> w.decisions[i].approval != Some(a))
       case Sent(id, Some(a)) =>
         && a < |w.approvals| && w.approvals[a].id == id
         && (forall i :: 0 <= i < |w.decisions| ==> w.decisions[i].approval != Some(a))
       case _ => true
  }

  /** The approval a consumer is still acting on. */
  function Carries(consumer: Consumer): Option<nat> {
    match consumer
    case Judged(_, approval) => approval
    case Sent(_, approval) => approval
    case _ => None
  }

  function WinOf(consumer: Consumer): Option<nat> {
    if consumer.Keyed? then consumer.win else None
  }

  /** No two consumers act on the same win or the same approval. */
  predicate Apart(a: Consumer, b: Consumer) {
    (WinOf(a).Some? ==> WinOf(a) != WinOf(b)) && (Carries(a).Some? ==> Carries(a) != Carries(b))
  }

  predicate SubmissionOk(w: World, s: Submission) {
    s.approval < |w.approvals| && w.approvals[s.approval].id == s.id
  }

  predicate DecisionOk(w: World, d: Decision) {
    d.approval.Some? ==> d.approval.value < |w.approvals| && w.approvals[d.approval.value].id == d.id
  }

  ghost predicate WinsInv(w: World) {
    && (forall i :: 0 <= i < |w.wins| ==> WinOk(w, w.wins[i]))
    && (forall i, j :: 0 <= i < j < |w.wins| ==> WinsSpaced(w.wins[i], w.wins[j]))
  }

  ghost predicate ApprovalsInv(p: Params, w: World) {
    && (forall i :: 0 <= i < |w.approvals| ==> ApprovalOk(p, w, w.approvals[i]))
    && (forall i, j :: 0 <= i < j < |w.approvals| ==> w.approvals[i].win != w.approvals[j].win)
  }

  ghost predicate SubmissionsInv(w: World) {
    && (forall i :: 0 <= i < |w.submissions| ==> SubmissionOk(w, w.submissions[i]))
    && (forall i, j :: 0 <= i < j < |w.submissions| ==> w.submissions[i].approval != w.submissions[j].approval)
  }

  ghost predicate DecisionsInv(w: World) {
    && (forall i :: 0 <= i < |w.decisions| ==> DecisionOk(w, w.decisions[i]))
    && (forall i, j :: 0 <= i < j < |w.decisions| && w.decisions[i].approval.Some? ==>
          w.decisions[i].approval != w.decisions[j].approval)
  }

  ghost predicate ConsumersInv(w: World) {
    && (forall k :: k in w.consumers ==> ConsumerOk(w, w.consumers[k]))
    && (forall k, l :: k in w.consumers && l in w.consumers && k != l ==> Apart(w.consumers[k], w.consumers[l]))
  }

  /** The risk engine's half: one approval per win, one submission and one decision per approval. */
  ghost predicate EngineInv(p: Params, w: World) {
    WinsInv(w) && ApprovalsInv(p, w) && SubmissionsInv(w) && DecisionsInv(w) && ConsumersInv(w)
  }

  lemma WinsKept(w: World, v: World)
    requires WinsInv(w) && v.wins == w.wins && v.decisionKeys == w.decisionKeys && w.signals <= v.signals && w.now <= v.now
    ensures WinsInv(v)
  {
    forall i | 0 <= i < |v.wins| ensures WinOk(v, v.wins[i]) {
      assert WinOk(w, w.wins[i]);
    }
  }

  lemma WinsGrow(w: World, v: World, id: SignalId)
    requires WinsInv(w) && !Live(w.decisionKeys, id, w.now)
    requires id < |w.signals| && w.signals[id].view.candleTs <= w.now
    requires v.wins == w.wins + [Win(id, w.now)] && v.signals == w.signals && v.now == w.now
    requires v.decisionKeys == w.decisionKeys[id := w.now + DECISION_KEY_TTL]
    ensures WinsInv(v)
  {
    forall i | 0 <= i < |w.wins| ensures WinOk(v, w.wins[i]) && WinsSpaced(w.wins[i], Win(id, w.now)) {
      assert WinOk(w, w.wins[i]);
    }
    forall i, j | 0 <= i < j < |v.wins| ensures WinsSpaced(v.wins[i], v.wins[j]) {
      assert v.wins[i] == w.wins[i];
      assert j < |w.wins| ==> WinsSpaced(w.wins[i], w.wins[j]);
    }
  }

  lemma ApprovalsKept(p: Params, w: World, v: World)
    requires ApprovalsInv(p, w) && v.approvals == w.approvals && w.wins <= v.wins && w.signals <= v.signals
    ensures ApprovalsInv(p, v)
  {
    forall i | 0 <= i < |v.approvals| ensures ApprovalOk(p, v, v.approvals[i]) {
      assert ApprovalOk(p, w, w.approvals[i]);
    }
  }

  lemma ApprovalsGrow(p: Params, w: World, v: World, a: Approval)
    requires ApprovalsInv(p, w) && ApprovalOk(p, w, a)
    requires v.approvals == w.approvals + [a] && v.wins == w.wins && v.signals == w.signals
    requires forall i :: 0 <= i < |w.approvals| ==> w.approvals[i].win != a.win
    ensures ApprovalsInv(p, v)
  {
    forall i | 0 <= i < |v.approvals| ensures ApprovalOk(p, v, v.approvals[i]) {
      assert i < |w.approvals| ==> ApprovalOk(p, w, w.approvals[i]);
    }
  }

  lemma SubmissionsKept(w: World, v: World)
    requires SubmissionsInv(w) && v.submissions == w.submissions && w.approvals <= v.approvals
    ensures SubmissionsInv(v)
  {
    forall i | 0 <= i < |v.submissions| ensures SubmissionOk(v, v.submissions[i]) {
      assert SubmissionOk(w, w.submissions[i]);
    }
  }

  lemma DecisionsKept(w: World, v: World)
    requires DecisionsInv(w) && v.decisions == w.decisions && w.approvals <= v.approvals
    ensures DecisionsInv(v)
  {
    forall i | 0 <= i < |v.decisions| ensures DecisionOk(v, v.decisions[i]) {
      assert DecisionOk(w, w.decisions[i]);
    }
  }

  lemma DecisionsGrow(w: World, v: World, d: Decision)
    requires DecisionsInv(w) && DecisionOk(w, d) && v.decisions == w.decisions + [d] && v.approvals == w.approvals
    requires d.approval.Some? ==> forall i :: 0 <= i < |w.decisions| ==> w.decisions[i].approval != d.approval
    ensures DecisionsInv(v)
  {
    forall i | 0 <= i < |v.decisions| ensures DecisionOk(v, v.decisions[i]) {
      assert i < |w.decisions| ==> DecisionOk(w, w.decisions[i]);
    }
  }

  /** A consumer is unaffected by history that does not use its win or its approval. */
  lemma Undisturbed(w: World, v: World, x: Consumer)
    requires ConsumerOk(w, x) && w.stream <= v.stream && w.wins <= v.wins && w.approvals <= v.approvals
    requires WinOf(x).Some? ==> forall i :: |w.approvals| <= i < |v.approvals| ==> v.approvals[i].win != WinOf(x)
    requires w.submissions <= v.submissions && w.decisions <= v.decisions
    requires Carries(x).Some? ==>
               && (forall i :: |w.submissions| <= i < |v.submissions| ==> Some(v.submissions[i].approval) != Carries(x))
               && (forall i :: |w.decisions| <= i < |v.decisions| ==> v.decisions[i].approval != Carries(x))
    ensures ConsumerOk(v, x)
  {
  }

  /** Consumer `k` moved (or left, or joined) and now stands alone; the history it made is its own. */
  lemma ConsumersKept(w: World, v: World, k: nat)
    requires ConsumersInv(w) && w.stream <= v.stream && w.wins <= v.wins && w.approvals <= v.approvals
    requires w.submissions <= v.submissions && w.decisions <= v.decisions
    requires forall l :: l in v.consumers && l != k ==> l in w.consumers && v.consumers[l] == w.consumers[l]
    requires k in v.consumers ==> ConsumerOk(v, v.consumers[k])
    requires forall l :: k in v.consumers && l in v.consumers && l != k ==>
                           Apart(v.consumers[k], v.consumers[l]) && Apart(v.consumers[l], v.consumers[k])
    requires forall i :: |w.approvals| <= i < |v.approvals| ==>
               k in w.consumers && v.approvals[i].win.Some? && v.approvals[i].win == WinOf(w.consumers[k])
    requires forall i :: |w.submissions| <= i < |v.submissions| ==>
               k in w.consumers && Some(v.submissions[i].approval) == Carries(w.consumers[k])
    requires forall i :: |w.decisions| <= i < |v.decisions| && v.decisions[i].approval.Some? ==>
               k in w.consumers && v.decisions[i].approval == Carries(w.consumers[k])
    ensures ConsumersInv(v)
  {
    forall l | l in v.consumers ensures ConsumerOk(v, v.consumers[l]) {
      if l != k {
        assert k in w.consumers ==> Apart(w.consumers[l], w.consumers[k]);
        Undisturbed(w, v, w.consumers[l]);
      }
    }
    forall l, m | l in v.consumers && m in v.consumers && l != m ensures Apart(v.consumers[l], v.consumers[m]) {
      if l != k && m != k {
        assert Apart(w.consumers[l], w.consumers[m]);
      }
    }
  }

  /** A consumer that keeps or drops its win and approval stays apart from the others. */
  lemma StillApart(w: World, v: World, k: nat)
    requires ConsumersInv(w) && k in w.consumers && k in v.consumers
    requires forall l :: l in v.consumers && l != k ==> l in w.consumers && v.consumers[l] == w.consumers[l]
    requires WinOf(v.consumers[k]).None? || WinOf(v.consumers[k]) == WinOf(w.consumers[k])
    requires Carries(v.consumers[k]).None? || Carries(v.consumers[k]) == Carries(w.consumers[k])
    ensures forall l :: l in v.consumers && l != k ==>
                          Apart(v.consumers[k], v.consumers[l]) && Apart(v.consumers[l], v.consumers[k])
  {
    forall l | l in v.consumers && l != k
      ensures Apart(v.consumers[k], v.consumers[l]) && Apart(v.consumers[l], v.consumers[k])
    {
      assert Apart(w.consumers[k], w.consumers[l]) && Apart(w.consumers[l], w.consumers[k]);
    }
  }

  lemma TakeKeyStep(p: Params, w: World, k: nat)
    requires p.Sane() && SchedulerInv(p, w) && EngineInv(p, w) && Enabled(p, w, TakeKey(k))
    ensures EngineInv(p, Do(p, w, TakeKey(k)))
  {
    hide WinsInv, SubmissionsInv, DecisionsInv;
    var v := Do(p, w, TakeKey(k));
    var id := w.consumers[k].id;
    assert ConsumerOk(w, w.consumers[k]);
    ApprovalsKept(p, w, v);
    SubmissionsKept(w, v);
    DecisionsKept(w, v);
    if Live(w.decisionKeys, id, w.now) {
      WinsKept(w, v);
      StillApart(w, v, k);
    } else {
      assert RowOk(p, w, w.signals[id]) && ClaimOk(p, w, w.claims[w.signals[id].claim]);
      WinsGrow(w, v, id);
      forall i | 0 <= i < |w.approvals| ensures w.approvals[i].win != Some(|w.wins|) {
        assert ApprovalOk(p, w, w.approvals[i]);
      }
      forall l | l in v.consumers && l != k
        ensures Apart(v.consumers[k], v.consumers[l]) && Apart(v.consumers[l], v.consumers[k])
      {
        assert ConsumerOk(w, w.consumers[l]);
      }
    }
    ConsumersKept(w, v, k);
  }

  lemma WinIsOk(w: World, i: nat)
    requires WinsInv(w) && i < |w.wins|
    ensures WinOk(w, w.wins[i])
  {
  }

  lemma JudgeStep(p: Params, w: World, step: Step)
    requires p.Sane() && EngineInv(p, w) && Enabled(p, w, step) && step.Judge?
    ensures EngineInv(p, Do(p, w, step))
  {
    hide WinsInv, ApprovalsInv, SubmissionsInv, DecisionsInv, Approves;
    var v := Do(p, w, step);
    var k := step.k;
    var id, win := w.consumers[k].id, w.consumers[k].win;
    assert ConsumerOk(w, w.consumers[k]);
    WinsKept(w, v);
    if Approves(w.signals[id].view, step.account, step.config, w.now, step.killswitch, win.None?, step.expectancy) {
      ApprovalNeeds(w.signals[id].view, step.account, step.config, w.now, step.killswitch, win.None?, step.expectancy);
      WinIsOk(w, win.value);
      ApprovalsGrow(p, w, v, Approval(id, win, w.now));
      NewApproval(w, v, k);
    } else {
      ApprovalsKept(p, w, v);
      StillApart(w, v, k);
    }
    SubmissionsKept(w, v);
    DecisionsKept(w, v);
    ConsumersKept(w, v, k);
  }

  /** A fresh approval is carried by nobody else, and nothing has been done with it yet. */
  lemma NewApproval(w: World, v: World, k: nat)
    requires ConsumersInv(w) && SubmissionsInv(w) && DecisionsInv(w) && k in w.consumers
    requires v.consumers == w.consumers[k := Judged(w.consumers[k].id, Some(|w.approvals|))]
    requires v.submissions == w.submissions && v.decisions == w.decisions && v.stream == w.stream
    requires |v.approvals| == |w.approvals| + 1 && v.approvals[|w.approvals|].id == w.consumers[k].id
    ensures ConsumerOk(v, v.consumers[k])
    ensures forall l :: l in v.consumers && l != k ==>
                          Apart(v.consumers[k], v.consumers[l]) && Apart(v.consumers[l], v.consumers[k])
  {
    assert ConsumerOk(w, w.consumers[k]);
    forall i | 0 <= i < |w.submissions| ensures w.submissions[i].approval != |w.approvals| {
      assert SubmissionOk(w, w.submissions[i]);
    }
    forall i | 0 <= i < |w.decisions| ensures w.decisions[i].approval != Some(|w.approvals|) {
      assert DecisionOk(w, w.decisions[i]);
    }
    forall l | l in v.consumers && l != k
      ensures Apart(v.consumers[k], v.consumers[l]) && Apart(v.consumers[l], v.consumers[k])
    {
      assert ConsumerOk(w, w.consumers[l]);
    }
  }

  lemma SubmitStep(p: Params, w: World, k: nat)
    requires p.Sane() && EngineInv(p, w) && Enabled(p, w, Submit(k))
    ensures EngineInv(p, Do(p, w, Submit(k)))
  {
    hide WinsInv, ApprovalsInv, DecisionsInv;
    var v := Do(p, w, Submit(k));
    var s := Submission(w.consumers[k].id, w.consumers[k].approval.value);
    assert ConsumerOk(w, w.consumers[k]);
    WinsKept(w, v);
    ApprovalsKept(p, w, v);
    forall i | 0 <= i < |v.submissions| ensures SubmissionOk(v, v.submissions[i]) {
      assert i < |w.submissions| ==> SubmissionOk(w, w.submissions[i]);
    }
    assert SubmissionsInv(v);
    DecisionsKept(w, v);
    StillApart(w, v, k);
    ConsumersKept(w, v, k);
  }

  lemma RecordIsOk(w: World, k: nat)
    requires ConsumersInv(w) && DecisionsInv(w) && k in w.consumers
    ensures DecisionOk(w, Decision(w.consumers[k].id, Carries(w.consumers[k])))
    ensures Carries(w.consumers[k]).Some? ==>
              forall i :: 0 <= i < |w.decisions| ==> w.decisions[i].approval != Carries(w.consumers[k])
  {
    assert ConsumerOk(w, w.consumers[k]);
  }

  lemma RecordStep(p: Params, w: World, step: Step)
    requires p.Sane() && EngineInv(p, w) && Enabled(p, w, step) && (step.Record? || step.BalanceDown?)
    ensures EngineInv(p, Do(p, w, step))
  {
    hide WinsInv, ApprovalsInv, SubmissionsInv, DecisionsInv, Approves;
    var v := Do(p, w, step);
    var k := step.k;
    assert ConsumerOk(w, w.consumers[k]);
    WinsKept(w, v);
    ApprovalsKept(p, w, v);
    SubmissionsKept(w, v);
    RecordIsOk(w, k);
    DecisionsGrow(w, v, Decision(w.consumers[k].id, Carries(w.consumers[k])));
    StillApart(w, v, k);
    ConsumersKept(w, v, k);
  }

  /** Receiving, acknowledging, giving up, and signals that are not there. */
  lemma MoveStep(p: Params, w: World, step: Step)
    requires p.Sane() && EngineInv(p, w) && Enabled(p, w, step)
    requires step.Receive? || step.NotFound? || step.Ack? || step.Drop?
    ensures EngineInv(p, Do(p, w, step))
  {
    hide WinsInv, ApprovalsInv, SubmissionsInv, DecisionsInv, Approves;
    var v := Do(p, w, step);
    WinsKept(w, v);
    ApprovalsKept(p, w, v);
    SubmissionsKept(w, v);
    DecisionsKept(w, v);
    assert step.k in w.consumers ==> ConsumerOk(w, w.consumers[step.k]);
    ConsumersKept(w, v, step.k);
  }

  predicate EngineMoves(step: Step) {
    && !step.Tick? && !SchedulerMoves(step) && !step.ClaimCandle? && !step.Commit?
  }

  lemma SchedulerLeavesEngine(p: Params, w: World, step: Step)
    requires p.Sane() && Enabled(p, w, step) && !EngineMoves(step)
    ensures var v := Do(p, w, step);
            && v.wins == w.wins && v.decisionKeys == w.decisionKeys && v.approvals == w.approvals
            && v.submissions == w.submissions && v.decisions == w.decisions && v.consumers == w.consumers
            && w.signals <= v.signals && w.stream <= v.stream && w.now <= v.now
  {
    hide Approves, NewestClosed;
  }

  lemma EngineStep(p: Params, w: World, step: Step)
    requires p.Sane() && SchedulerInv(p, w) && EngineInv(p, w) && Enabled(p, w, step)
    ensures EngineInv(p, Do(p, w, step))
  {
    if step.TakeKey? {
      TakeKeyStep(p, w, step.k);
    } else if step.Judge? {
      JudgeStep(p, w, step);
    } else if step.Submit? {
      SubmitStep(p, w, step.k);
    } else if step.Record? || step.BalanceDown? {
      RecordStep(p, w, step);
    } else if EngineMoves(step) {
      MoveStep(p, w, step);
    } else {
      SchedulerLeavesEngine(p, w, step);
      WinsKept(w, Do(p, w, step));
      ApprovalsKept(p, w, Do(p, w, step));
      SubmissionsKept(w, Do(p, w, step));
      DecisionsKept(w, Do(p, w, step));
      ConsumersWatch(w, Do(p, w, step));
    }
  }

  lemma ConsumersWatch(w: World, v: World)
    requires ConsumersInv(w) && v.consumers == w.consumers && w.stream <= v.stream && v.wins == w.wins
    requires v.approvals == w.approvals && v.submissions == w.submissions && v.decisions == w.decisions
    ensures ConsumersInv(v)
  {
    forall k | k in v.consumers ensures ConsumerOk(v, v.consumers[k]) {
      Undisturbed(w, v, w.consumers[k]);
    }
  }

  // ------------------------------------------------------------------- runs

  lemma {:induction false} RunKeepsInvariants(p: Params, w: World, steps: seq<Step>)
    requires p.Sane() && SchedulerInv(p, w) && EngineInv(p, w) && Exec(p, w, steps).Some?
    ensures SchedulerInv(p, Exec(p, w, steps).value) && EngineInv(p, Exec(p, w, steps).value)
    decreases |steps|
  {
    if steps != [] {
      SchedulerStep(p, w, steps[0]);
      EngineStep(p, w, steps[0]);
      RunKeepsInvariants(p, Do(p, w, steps[0]), steps[1..]);
    }
  }

  lemma ReachableInvariants(p: Params, w: World)
    requires p.Sane() && Reachable(p, w)
    ensures SchedulerInv(p, w) && EngineInv(p, w)
  {
    var now: Time, steps: seq<Step> :| Exec(p, Start(now), steps) == Some(w);
    RunKeepsInvariants(p, Start(now), steps);
  }
}
