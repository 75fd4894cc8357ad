/** What one reconciliation pass does to each row, in terms of the row's age, the exchange's answer and the tables
    the pass started from. */
module ReconcileOutcome {
  import opened Common
  import opened OrderFlow
  import opened OrderStore
  import opened ReconcileLaws
  import opened ReconcileSpec

  // ------------------------------------------------------------------ orders

  /** A submitted order that has waited at least that long. */
  predicate Overdue(o: Order, now: Time, staleAfter: Time) {
    o.status == Submitted && now - o.createdAt >= staleAfter
  }

  /** What the exchange says of a trade, if it answers for that pair. */
  function Answer(remote: Oracle, tradeId: Option<TradeId>, pair: Symbol): Option<RemoteTrade> {
    if tradeId.Some? && remote(tradeId.value).Some? && remote(tradeId.value).value.pair == pair
    then remote(tradeId.value) else None
  }

  /** An entry is confirmed by an open trade that is completely filled; an exit by a closed trade with its
      figures, when some position is to be closed by it. */
  ghost predicate Confirmed(s: Store, remote: Oracle, r: OrderId)
    requires r < |s.orders|
  {
    var o := s.orders[r];
    var answer := Answer(remote, o.tradeId, o.symbol);
    && answer.Some?
    && var t := answer.value;
       if o.side == BUY then
         && t.isOpen && t.openRate.Some? && t.amount.Some? && t.amount.value > 0.0
         && t.hasOpenOrders == Some(false) && t.openFillDate.Some?
       else
         && !t.isOpen && t.closeRate.Some? && t.amount.Some?
         && exists p :: 0 <= p < |s.positions| && s.positions[p].exitOrder == Some(r)
  }

  /** An overdue order is filled at the confirmed rate and amount, or keeps its row and has its trace alerted; every
      other order keeps its row. */
  ghost predicate OrderReconciled(s: Store, t: Store, remote: Oracle, now: Time, staleAfter: Time, r: OrderId)
    requires r < |s.orders| && r < |t.orders|
  {
    var o := s.orders[r];
    if !Overdue(o, now, staleAfter) then t.orders[r] == o
    else if Confirmed(s, remote, r) then
      var trade := Answer(remote, o.tradeId, o.symbol).value;
      t.orders[r] == o.(status := Filled, filledAmount := trade.amount,
                        avgPrice := if o.side == BUY then trade.openRate else trade.closeRate)
    else t.orders[r] == o && AuditEvent(o.traceId, ReconciliationRequired) in t.events
  }

  // --------------------------------------------------------------- positions

  /** The position a confirmed overdue entry without one gets. */
  ghost predicate OpenedByPass(s: Store, remote: Oracle, now: Time, staleAfter: Time, x: Position) {
    && x.entryOrder < |s.orders|
    && var o := s.orders[x.entryOrder];
       && o.side == BUY && Overdue(o, now, staleAfter) && Confirmed(s, remote, x.entryOrder)
       && (forall p :: 0 <= p < |s.positions| ==> s.positions[p].entryOrder != x.entryOrder)
       && var trade := Answer(remote, o.tradeId, o.symbol).value;
          && x.symbol == o.symbol && x.status == Open && x.exitOrder == None
          && Some(x.entryPrice) == trade.openRate && Some(x.amount) == trade.amount
          && x.openedAt == if trade.openDate.Some? then trade.openDate.value else now
  }

  /** Closed by the order, with the exchange's figures and everything else kept. */
  predicate ClosedWith(x: Position, y: Position, trade: RemoteTrade, now: Time) {
    && y.status == Closed && y.exitOrder.Some? && y.exitPrice == trade.closeRate && y.pnl == trade.profitAbs
    && y.closedAt == Some(if trade.closeDate.Some? then trade.closeDate.value else now)
    && y.symbol == x.symbol && y.entryOrder == x.entryOrder && y.entryPrice == x.entryPrice
    && y.amount == x.amount && y.openedAt == x.openedAt
  }

  /** The position's exit order is overdue and confirmed. */
  ghost predicate ExitConfirmed(s: Store, remote: Oracle, now: Time, staleAfter: Time, x: Position) {
    && x.exitOrder.Some? && x.exitOrder.value < |s.orders|
    && s.orders[x.exitOrder.value].side == SELL
    && Overdue(s.orders[x.exitOrder.value], now, staleAfter) && Confirmed(s, remote, x.exitOrder.value)
  }

  /** An open position whose entry is a BUY of a known trade. */
  predicate Traceable(s: Store, x: Position) {
    && x.status == Open && x.entryOrder < |s.orders|
    && s.orders[x.entryOrder].side == BUY && s.orders[x.entryOrder].tradeId.Some?
  }

  /** A position is closed by its confirmed overdue exit; failing that, an open one of a known trade is closed by a
      new order when the exchange has closed the trade, alerted when that is unclear, and left alone while the
      trade is open; and every other position is left alone. */
  ghost predicate PositionReconciled(s: Store, t: Store, remote: Oracle, now: Time, staleAfter: Time, p: PositionId)
    requires p < |s.positions| && p < |t.positions|
  {
    var x, y := s.positions[p], t.positions[p];
    if ExitConfirmed(s, remote, now, staleAfter, x) then
      var o := s.orders[x.exitOrder.value];
      ClosedWith(x, y, Answer(remote, o.tradeId, o.symbol).value, now) && y.exitOrder == x.exitOrder
    else if Traceable(s, x) then
      var entry := s.orders[x.entryOrder];
      var answer := Answer(remote, entry.tradeId, x.symbol);
      if answer.Some? && answer.value.isOpen then y == x
      else if answer.Some? && answer.value.closeRate.Some? && answer.value.amount.Some? then
        && ClosedWith(x, y, answer.value, now)
        && |s.orders| <= y.exitOrder.value < |t.orders|
        && var o := t.orders[y.exitOrder.value];
           && o.side == SELL && o.status == Filled && o.symbol == x.symbol && o.tradeId == Some(answer.value.tradeId)
           && o.traceId == entry.traceId && o.decisionId == entry.decisionId && o.requestedAmount == x.amount
           && o.filledAmount == answer.value.amount && o.avgPrice == answer.value.closeRate && o.createdAt == now
      else y == x && AuditEvent(entry.traceId, ReconciliationRequired) in t.events
    else y == x
  }

  // -------------------------------------------------------------------- pass

  /** The whole outcome of a pass. */
  ghost predicate Reconciled(s: Store, t: Store, remote: Oracle, now: Time, staleAfter: Time) {
    && |t.orders| >= |s.orders| && |t.positions| >= |s.positions|
    && (forall r :: 0 <= r < |s.orders| ==> OrderReconciled(s, t, remote, now, staleAfter, r))
    && (forall p :: 0 <= p < |s.positions| ==> PositionReconciled(s, t, remote, now, staleAfter, p))
    && (forall p :: |s.positions| <= p < |t.positions| ==> OpenedByPass(s, remote, now, staleAfter, t.positions[p]))
    && (forall r :: 0 <= r < |s.orders| && Overdue(s.orders[r], now, staleAfter) && s.orders[r].side == BUY
                    && Confirmed(s, remote, r) ==>
          exists p :: 0 <= p < |t.positions| && t.positions[p].entryOrder == r)
  }

  lemma StaleIsOverdue(s: Store, now: Time, staleAfter: Time, r: OrderId)
    requires r < |s.orders|
    ensures r in StaleRows(s, now - staleAfter) <==> Overdue(s.orders[r], now, staleAfter)
  {
  }

  lemma VerdictIsConfirmation(s: Store, remote: Oracle, r: OrderId)
    requires r < |s.orders|
    ensures Verdict(s, remote, r).AlertOrder? <==> !Confirmed(s, remote, r)
    ensures Confirmed(s, remote, r) ==>
              Verdict(s, remote, r) == if s.orders[r].side == BUY
                                       then FillEntry(Answer(remote, s.orders[r].tradeId, s.orders[r].symbol).value)
                                       else FillExit(Answer(remote, s.orders[r].tradeId, s.orders[r].symbol).value)
  {
  }

  lemma OrderOutcome(s: Store, mid: Store, t: Store, remote: Oracle, now: Time, staleAfter: Time, first: nat, second: nat,
                     r: OrderId)
    requires OrdersDone(s, mid, remote, now, StaleRows(s, now - staleAfter), first)
    requires PositionsDone(mid, t, remote, now, WatchedRows(mid), second)
    requires r < |s.orders|
    ensures r < |t.orders| && OrderReconciled(s, t, remote, now, staleAfter, r)
  {
    hide Confirmed, Verdict, FilledRows, OpenedRows, OpenedExactly;
    StaleIsOverdue(s, now, staleAfter, r);
    VerdictIsConfirmation(s, remote, r);
    assert t.orders[r] == mid.orders[r];
    if r in StaleRows(s, now - staleAfter) && Verdict(s, remote, r).AlertOrder? {
      if !Alerted(s, s.orders[r].traceId) {
        assert s.orders[r].traceId in NewAlerts(s, remote, StaleRows(s, now - staleAfter));
      }
      assert Alerted(mid, s.orders[r].traceId) && Alerted(t, s.orders[r].traceId);
    }
  }

  lemma OpenedOutcome(s: Store, mid: Store, remote: Oracle, now: Time, staleAfter: Time, first: nat, p: PositionId)
    requires OrdersDone(s, mid, remote, now, StaleRows(s, now - staleAfter), first)
    requires |s.positions| <= p < |mid.positions|
    ensures OpenedByPass(s, remote, now, staleAfter, mid.positions[p])
  {
    var x := mid.positions[|s.positions|..][p - |s.positions|];
    assert mid.positions[p] == x;
    assert x.entryOrder in OpenedRows(s, remote, StaleRows(s, now - staleAfter));
    StaleIsOverdue(s, now, staleAfter, x.entryOrder);
    VerdictIsConfirmation(s, remote, x.entryOrder);
  }

  lemma EntryOutcome(s: Store, mid: Store, remote: Oracle, now: Time, staleAfter: Time, first: nat, r: OrderId)
    requires OrdersDone(s, mid, remote, now, StaleRows(s, now - staleAfter), first)
    requires r < |s.orders| && Overdue(s.orders[r], now, staleAfter) && s.orders[r].side == BUY && Confirmed(s, remote, r)
    ensures exists p :: 0 <= p < |mid.positions| && mid.positions[p].entryOrder == r
  {
    StaleIsOverdue(s, now, staleAfter, r);
    VerdictIsConfirmation(s, remote, r);
    var rows := StaleRows(s, now - staleAfter);
    if HasEntry(s, r) {
      var p :| 0 <= p < |s.positions| && s.positions[p].entryOrder == r;
      assert mid.positions[p] == PositionAfter(s, remote, now, rows, p);
      assert mid.positions[p].entryOrder == r;
    } else {
      assert r in OpenedRows(s, remote, rows);
      var added := mid.positions[|s.positions|..];
      var k :| 0 <= k < |added| && added[k].entryOrder == r;
      assert mid.positions[|s.positions| + k] == added[k];
    }
  }

  /** What the first phase makes of a position. */
  lemma ExitOutcome(s: Store, remote: Oracle, now: Time, staleAfter: Time, p: PositionId)
    requires p < |s.positions| && ValidPosition(s, s.positions[p])
    ensures var x, y := s.positions[p], PositionAfter(s, remote, now, StaleRows(s, now - staleAfter), p);
            if ExitConfirmed(s, remote, now, staleAfter, x) then
              var o := s.orders[x.exitOrder.value];
              ClosedWith(x, y, Answer(remote, o.tradeId, o.symbol).value, now) && y.exitOrder == x.exitOrder
            else y == x
  {
    var x := s.positions[p];
    if x.exitOrder.Some? {
      StaleIsOverdue(s, now, staleAfter, x.exitOrder.value);
      VerdictIsConfirmation(s, remote, x.exitOrder.value);
    }
  }

  /** What the second phase looks at has the same entry as before the pass. */
  lemma EntryKept(s: Store, mid: Store, remote: Oracle, now: Time, cutoff: Time, first: nat, p: PositionId)
    requires OrdersDone(s, mid, remote, now, StaleRows(s, cutoff), first)
    requires p < |s.positions| && mid.positions[p] == s.positions[p] && ValidPosition(s, s.positions[p])
    ensures Watched(mid, p) <==> Traceable(s, s.positions[p])
    ensures var e := s.positions[p].entryOrder;
            && mid.orders[e].tradeId == s.orders[e].tradeId && mid.orders[e].traceId == s.orders[e].traceId
            && mid.orders[e].decisionId == s.orders[e].decisionId && mid.orders[e].side == s.orders[e].side
  {
    var e := s.positions[p].entryOrder;
    assert mid.orders[e] == if e in StaleRows(s, cutoff) then OrderAfter(s, remote, e) else s.orders[e];
  }

  lemma PositionOutcome(s: Store, mid: Store, t: Store, remote: Oracle, now: Time, staleAfter: Time, first: nat,
                        second: nat, p: PositionId)
    requires Valid(s) && OrdersDone(s, mid, remote, now, StaleRows(s, now - staleAfter), first)
    requires PositionsDone(mid, t, remote, now, WatchedRows(mid), second)
    requires p < |s.positions|
    ensures p < |t.positions| && PositionReconciled(s, t, remote, now, staleAfter, p)
  {
    hide ExitConfirmed, OrderAfter, PositionAfter, Valid, OpenedExactly, NewAlerts, FilledRows;
    PositionIsValid(s, p);
    ExitOutcome(s, remote, now, staleAfter, p);
    var x, y := s.positions[p], mid.positions[p];
    assert y == PositionAfter(s, remote, now, StaleRows(s, now - staleAfter), p);
    assert Settled(mid, t, remote, now, WatchedRows(mid), p);
    if !ExitConfirmed(s, remote, now, staleAfter, x) {
      EntryKept(s, mid, remote, now, now - staleAfter, first, p);
      if Traceable(s, x) && RemoteVerdict(mid, remote, p).AlertEntry? {
        EntryAlerted(mid, t, remote, now, second, p);
      }
    }
  }

  lemma EntryAlerted(mid: Store, t: Store, remote: Oracle, now: Time, second: nat, p: PositionId)
    requires PositionsDone(mid, t, remote, now, WatchedRows(mid), second)
    requires Watched(mid, p) && RemoteVerdict(mid, remote, p).AlertEntry?
    ensures Alerted(t, mid.orders[mid.positions[p].entryOrder].traceId)
  {
    var traceId := mid.orders[mid.positions[p].entryOrder].traceId;
    if !Alerted(mid, traceId) {
      assert p in WatchedRows(mid);
      assert traceId in EntryAlerts(mid, remote, WatchedRows(mid));
    }
  }

  /** Every pass has that outcome. */
  lemma PassReconciles(s: Store, mid: Store, t: Store, remote: Oracle, now: Time, staleAfter: Time, count: nat)
    requires Valid(s) && Pass(s, mid, t, remote, now, now - staleAfter, count)
    ensures Reconciled(s, t, remote, now, staleAfter)
  {
    hide Valid, OrdersDone, PositionsDone, OrderReconciled, PositionReconciled, OpenedByPass, Confirmed, Overdue;
    var first: nat, second: nat :|
      count == first + second
      && OrdersDone(s, mid, remote, now, StaleRows(s, now - staleAfter), first)
      && PositionsDone(mid, t, remote, now, WatchedRows(mid), second);
    Lengths(s, mid, t, remote, now, StaleRows(s, now - staleAfter), first, second);
    forall r | 0 <= r < |s.orders| ensures OrderReconciled(s, t, remote, now, staleAfter, r) {
      OrderOutcome(s, mid, t, remote, now, staleAfter, first, second, r);
    }
    forall p | 0 <= p < |s.positions| ensures PositionReconciled(s, t, remote, now, staleAfter, p) {
      PositionOutcome(s, mid, t, remote, now, staleAfter, first, second, p);
    }
    forall p | |s.positions| <= p < |t.positions| ensures OpenedByPass(s, remote, now, staleAfter, t.positions[p]) {
      NewLeftAlone(s, mid, t, remote, now, StaleRows(s, now - staleAfter), first, second, p);
      OpenedOutcome(s, mid, remote, now, staleAfter, first, p);
    }
    forall r | 0 <= r < |s.orders| && Overdue(s.orders[r], now, staleAfter) && s.orders[r].side == BUY
               && Confirmed(s, remote, r)
      ensures exists p :: 0 <= p < |t.positions| && t.positions[p].entryOrder == r
    {
      EntryOutcome(s, mid, remote, now, staleAfter, first, r);
      var p :| 0 <= p < |mid.positions| && mid.positions[p].entryOrder == r;
      EntrySurvives(mid, t, remote, now, second, p);
    }
  }

  /** The exchange closed the trade of a position that the first phase left open. */
  ghost predicate ClosedRemotely(s: Store, remote: Oracle, now: Time, staleAfter: Time, x: Position) {
    && !ExitConfirmed(s, remote, now, staleAfter, x) && Traceable(s, x)
    && var answer := Answer(remote, s.orders[x.entryOrder].tradeId, x.symbol);
       answer.Some? && !answer.value.isOpen && answer.value.closeRate.Some? && answer.value.amount.Some?
  }

  /** A pass counts the orders it fills and the positions it finds closed. */
  ghost predicate Counted(s: Store, remote: Oracle, now: Time, staleAfter: Time, count: nat) {
    count == |set r: OrderId | r < |s.orders| && Overdue(s.orders[r], now, staleAfter) && Confirmed(s, remote, r)|
             + |set p: PositionId | p < |s.positions| && ClosedRemotely(s, remote, now, staleAfter, s.positions[p])|
  }

  lemma ClosedByExchange(s: Store, mid: Store, remote: Oracle, now: Time, staleAfter: Time, first: nat, p: PositionId)
    requires Valid(s) && OrdersDone(s, mid, remote, now, StaleRows(s, now - staleAfter), first)
    requires p < |s.positions|
    ensures p < |mid.positions|
    ensures Watched(mid, p) && RemoteVerdict(mid, remote, p).CloseOut? <==>
              ClosedRemotely(s, remote, now, staleAfter, s.positions[p])
  {
    hide ExitConfirmed, OrderAfter, PositionAfter, Valid, OpenedExactly, NewAlerts, FilledRows;
    PositionIsValid(s, p);
    ExitOutcome(s, remote, now, staleAfter, p);
    assert mid.positions[p] == PositionAfter(s, remote, now, StaleRows(s, now - staleAfter), p);
    if !ExitConfirmed(s, remote, now, staleAfter, s.positions[p]) {
      EntryKept(s, mid, remote, now, now - staleAfter, first, p);
    }
  }

  lemma PassCounts(s: Store, mid: Store, t: Store, remote: Oracle, now: Time, staleAfter: Time, count: nat)
    requires Valid(s) && Pass(s, mid, t, remote, now, now - staleAfter, count)
    ensures Counted(s, remote, now, staleAfter, count)
  {
    hide Valid, PositionAfter, OrderAfter, OpenedExactly, Settled, AlertsAfter, Confirmed, ClosedRemotely, Overdue, Stale;
    var rows := StaleRows(s, now - staleAfter);
    var first: nat, second: nat :|
      count == first + second
      && OrdersDone(s, mid, remote, now, rows, first)
      && PositionsDone(mid, t, remote, now, WatchedRows(mid), second);
    var filled := set r: OrderId | r < |s.orders| && Overdue(s.orders[r], now, staleAfter) && Confirmed(s, remote, r);
    var closed := set p: PositionId | p < |s.positions| && ClosedRemotely(s, remote, now, staleAfter, s.positions[p]);
    forall r: OrderId ensures r in FilledRows(s, remote, rows) <==> r in filled {
      if r < |s.orders| {
        StaleIsOverdue(s, now, staleAfter, r);
        VerdictIsConfirmation(s, remote, r);
      }
    }
    assert FilledRows(s, remote, rows) == filled;
    ClosesOnlyKnown(s, mid, remote, now, rows, first);
    forall p: PositionId ensures p in ClosedPositions(mid, remote, WatchedRows(mid)) <==> p in closed {
      if p < |s.positions| {
        ClosedByExchange(s, mid, remote, now, staleAfter, first, p);
      }
    }
    assert ClosedPositions(mid, remote, WatchedRows(mid)) == closed;
  }

  lemma Lengths(s: Store, mid: Store, t: Store, remote: Oracle, now: Time, rows: set<OrderId>, first: nat, second: nat)
    requires OrdersDone(s, mid, remote, now, rows, first) && PositionsDone(mid, t, remote, now, WatchedRows(mid), second)
    ensures |t.orders| >= |mid.orders| == |s.orders| && |t.positions| == |mid.positions| >= |s.positions|
  {
  }

  lemma NewLeftAlone(s: Store, mid: Store, t: Store, remote: Oracle, now: Time, rows: set<OrderId>, first: nat,
                     second: nat, p: PositionId)
    requires OrdersDone(s, mid, remote, now, rows, first) && PositionsDone(mid, t, remote, now, WatchedRows(mid), second)
    requires |s.positions| <= p < |mid.positions|
    ensures p < |t.positions| && t.positions[p] == mid.positions[p]
  {
    ClosesOnlyKnown(s, mid, remote, now, rows, first);
    assert Settled(mid, t, remote, now, WatchedRows(mid), p);
  }

  lemma EntrySurvives(mid: Store, t: Store, remote: Oracle, now: Time, second: nat, p: PositionId)
    requires PositionsDone(mid, t, remote, now, WatchedRows(mid), second) && p < |mid.positions|
    ensures p < |t.positions| && t.positions[p].entryOrder == mid.positions[p].entryOrder
  {
    assert Settled(mid, t, remote, now, WatchedRows(mid), p);
  }
}
