/** The reconciliation loop over the audit tables, updated in place. The database may return its rows in
    any order: each loop picks the next row arbitrarily, and the contract does not mention the order. */
module Reconciliation {
  import opened Common
  import opened OrderFlow
  import opened OrderStore
  import opened ReconcileFacts
  import opened ReconcileOutcome
  import opened ReconcileSpec

  /** `_alert_once`. */
  method RaiseAlert(session: Session, traceId: TraceId)
    requires Valid(session.View())
    modifies session`events
    ensures session.View() == AlertOnce(old(session.View()), traceId)
    ensures Valid(session.View()) && Evolves(old(session.View()), session.View())
    ensures old(UniqueEntries(session.View())) ==> UniqueEntries(session.View())
  {
    if AuditEvent(traceId, ReconciliationRequired) in session.events {
      return;
    }
    LogIsSafe(session.View(), traceId, [ReconciliationRequired]);
    session.Record(traceId, [ReconciliationRequired]);
  }

  function EntryFilled(s: Store, r: OrderId, t: RemoteTrade, now: Time): Store
    requires r < |s.orders| && EntryConfirmed(t)
  {
    var filled := FillOrder(s, r, t.amount.value, t.openRate.value);
    if HasEntry(s, r) then filled
    else OpenPosition(filled, r, t.openRate.value, t.amount.value, OrElse(t.openDate, now))
  }

  /** `_reconcile_open_entry`: fill the order, and open its position unless there already is one. */
  method ReconcileOpenEntry(session: Session, r: OrderId, trade: RemoteTrade, now: Time) returns (filled: bool)
    requires Valid(session.View()) && r < |session.orders| && session.orders[r].side == BUY
    modifies session
    ensures filled <==> EntryConfirmed(trade)
    ensures session.View() == if filled
                              then Log(EntryFilled(old(session.View()), r, trade, now), old(session.orders)[r].traceId,
                                       [OrderFilled, PositionOpened])
                              else AlertOnce(old(session.View()), old(session.orders)[r].traceId)
    ensures Valid(session.View()) && Evolves(old(session.View()), session.View())
    ensures old(UniqueEntries(session.View())) ==> UniqueEntries(session.View())
  {
    hide Valid, Evolves;
    var order := session.orders[r];
    if trade.openRate.None? || trade.amount.None? || trade.amount.value <= 0.0
       || trade.hasOpenOrders != Some(false) || trade.openFillDate.None? {
      RaiseAlert(session, order.traceId);
      return false;
    }
    ghost var s0 := session.View();
    var known := false;
    for i := 0 to |session.positions|
      invariant known <==> exists p :: 0 <= p < i && session.positions[p].entryOrder == r
      invariant session.View() == s0
    {
      known := known || session.positions[i].entryOrder == r;
    }
    BuyClosesNothing(s0, r);
    FillOrderIsSafe(s0, r, trade.amount.value, trade.openRate.value);
    session.orders := session.orders[r := order.(status := Filled, filledAmount := trade.amount, avgPrice := trade.openRate)];
    ghost var s1 := session.View();
    var openedAt := OrElse(trade.openDate, now);
    OpenPositionIsSafe(s1, r, trade.openRate.value, trade.amount.value, openedAt);
    if !known {
      session.positions := session.positions + [Position(order.symbol, Open, r, None, trade.openRate.value,
                                                         trade.amount.value, openedAt, None, None, None)];
    }
    ghost var s2 := session.View();
    EvolvesTransitive(s0, s1, s2);
    LogIsSafe(s2, order.traceId, [OrderFilled, PositionOpened]);
    session.Record(order.traceId, [OrderFilled, PositionOpened]);
    EvolvesTransitive(s0, s2, session.View());
    filled := true;
  }

  /** `_reconcile_closed_exit`: fill the order and close the position it is linked to. */
  method ReconcileClosedExit(session: Session, r: OrderId, trade: RemoteTrade, now: Time)
    returns (closed: Option<PositionId>)
    requires Valid(session.View()) && r < |session.orders| && session.orders[r].side == SELL
    modifies session
    ensures closed.Some? <==> ClosedOut(trade) && HasExit(old(session.View()), r)
    ensures closed.None? ==> session.View() == AlertOnce(old(session.View()), old(session.orders)[r].traceId)
    ensures closed.Some? ==>
              && closed.value < |old(session.positions)|
              && old(session.positions)[closed.value].exitOrder == Some(r)
              && session.View() == Log(CloseWith(old(session.View()), closed.value, r, trade.amount.value,
                                                 trade.closeRate.value, trade.profitAbs,
                                                 OrElse(trade.closeDate, now)),
                                       old(session.orders)[r].traceId, [OrderFilled, PositionClosed])
    ensures Valid(session.View()) && Evolves(old(session.View()), session.View())
    ensures old(UniqueEntries(session.View())) ==> UniqueEntries(session.View())
  {
    var order := session.orders[r];
    if trade.closeRate.None? || trade.amount.None? {
      RaiseAlert(session, order.traceId);
      return None;
    }
    closed := session.FindByExit(r);
    if closed.None? {
      RaiseAlert(session, order.traceId);
      return;
    }
    var p := closed.value;
    ghost var s0 := session.View();
    var closedAt := OrElse(trade.closeDate, now);
    assert ValidPosition(s0, session.positions[p]);
    CloseWithIsSafe(s0, p, r, trade.amount.value, trade.closeRate.value, trade.profitAbs, closedAt);
    session.orders := session.orders[r := order.(status := Filled, filledAmount := trade.amount, avgPrice := trade.closeRate)];
    session.positions := session.positions[p := ClosedBy(session.positions[p], r, trade.closeRate.value, trade.profitAbs,
                                                         closedAt)];
    ghost var s1 := session.View();
    LogIsSafe(s1, order.traceId, [OrderFilled, PositionClosed]);
    session.Record(order.traceId, [OrderFilled, PositionClosed]);
    EvolvesTransitive(s0, s1, session.View());
  }

  /** One stale order of the first loop. */
  method VisitOrder(session: Session, remote: Oracle, now: Time, r: OrderId, ghost s: Store, ghost done: set<OrderId>,
                    ghost count: nat) returns (filled: bool)
    requires Valid(s) && Valid(session.View()) && OrdersDone(s, session.View(), remote, now, done, count)
    requires r < |s.orders| && r !in done
    modifies session
    ensures OrdersDone(s, session.View(), remote, now, done + {r}, count + if filled then 1 else 0)
    ensures Valid(session.View()) && Evolves(old(session.View()), session.View())
    ensures old(UniqueEntries(session.View())) ==> UniqueEntries(session.View())
  {
    hide Valid, Evolves, UniqueEntries, OpenedExactly, AlertsAfter, FilledRows, OpenedRows, NewAlerts, AlertOnce;
    ghost var t := session.View();
    UnvisitedRow(s, t, remote, now, done, count, r);
    VerdictFacts(s, remote, r);
    var order := session.orders[r];
    filled := false;
    if order.tradeId.None? {
      RaiseAlert(session, order.traceId);
      AlertStep(s, t, remote, now, done, count, r);
      return;
    }
    var found := remote(order.tradeId.value);
    if found.None? || found.value.pair != order.symbol {
      RaiseAlert(session, order.traceId);
      AlertStep(s, t, remote, now, done, count, r);
      return;
    }
    var trade := found.value;
    if order.side == BUY && trade.isOpen {
      filled := ReconcileOpenEntry(session, r, trade, now);
      if filled {
        EntryStep(s, t, EntryFilled(t, r, trade, now), remote, now, done, count, r);
      } else {
        AlertStep(s, t, remote, now, done, count, r);
      }
    } else if order.side == SELL && !trade.isOpen {
      var closed := ReconcileClosedExit(session, r, trade, now);
      filled := closed.Some?;
      if filled {
        ghost var p := closed.value;
        ExitStep(s, t, CloseWith(t, p, r, trade.amount.value, trade.closeRate.value, trade.profitAbs,
                                 OrElse(trade.closeDate, now)), remote, now, done, count, r, p);
      } else {
        AlertStep(s, t, remote, now, done, count, r);
      }
    } else {
      RaiseAlert(session, order.traceId);
      AlertStep(s, t, remote, now, done, count, r);
    }
  }

  /** One open position of the second loop: close it if the exchange already did. */
  method VisitPosition(session: Session, remote: Oracle, now: Time, p: PositionId, ghost s: Store,
                       ghost done: set<PositionId>, ghost count: nat) returns (closed: bool)
    requires Valid(session.View()) && PositionsDone(s, session.View(), remote, now, done, count)
    requires Watched(s, p) && p !in done
    modifies session
    ensures PositionsDone(s, session.View(), remote, now, done + {p}, count + if closed then 1 else 0)
    ensures Valid(session.View()) && Evolves(old(session.View()), session.View())
    ensures old(UniqueEntries(session.View())) ==> UniqueEntries(session.View())
  {
    ghost var t := session.View();
    UnvisitedPosition(s, t, remote, now, done, count, p);
    var position := session.positions[p];
    var entry := session.orders[position.entryOrder];
    var found := remote(entry.tradeId.value);
    closed := false;
    if found.None? || found.value.pair != position.symbol {
      RaiseAlert(session, entry.traceId);
      AlertEntryStep(s, t, remote, now, done, count, p);
      return;
    }
    var trade := found.value;
    if trade.isOpen {
      LeaveStep(s, t, remote, now, done, count, p);
      return;
    }
    if trade.closeRate.None? || trade.amount.None? {
      RaiseAlert(session, entry.traceId);
      AlertEntryStep(s, t, remote, now, done, count, p);
      return;
    }
    CloseRemotely(session, p, trade, now);
    CloseOutStep(s, t, Closing(t, p, trade, now), remote, now, done, count, p);
    closed := true;
  }

  function Closing(t: Store, p: PositionId, trade: RemoteTrade, now: Time): Store
    requires p < |t.positions| && t.positions[p].entryOrder < |t.orders| && ClosedOut(trade)
  {
    AddOrder(t, ExitRow(t, p, trade, now)).(positions := t.positions[p := ClosedAfter(t, t.positions[p], |t.orders|, trade, now)])
  }

  /** A fresh filled SELL order, and the position closed by it at the same price. */
  method CloseRemotely(session: Session, p: PositionId, trade: RemoteTrade, now: Time)
    requires Valid(session.View()) && ClosedOut(trade)
    requires p < |session.positions| && session.positions[p].entryOrder < |session.orders|
    modifies session
    ensures session.View() == Log(Closing(old(session.View()), p, trade, now),
                                  old(session.orders)[old(session.positions)[p].entryOrder].traceId,
                                  [OrderFilled, PositionClosed])
    ensures Valid(session.View()) && Evolves(old(session.View()), session.View())
    ensures old(UniqueEntries(session.View())) ==> UniqueEntries(session.View())
  {
    hide Valid, Evolves;
    ghost var s0 := session.View();
    var position := session.positions[p];
    var entry := session.orders[position.entryOrder];
    var row := ExitRow(session.View(), p, trade, now);
    AddOrderIsSafe(s0, row);
    session.orders := session.orders + [row];
    ghost var s1 := session.View();
    var o := |session.orders| - 1;
    var closedAt := OrElse(trade.closeDate, now);
    FreshClosesNothing(s0, o);
    CloseWithIsSafe(s1, p, o, trade.amount.value, trade.closeRate.value, trade.profitAbs, closedAt);
    session.positions := session.positions[p := ClosedBy(position, o, trade.closeRate.value, trade.profitAbs, closedAt)];
    ghost var s2 := session.View();
    assert s2.orders == FillOrder(s1, o, trade.amount.value, trade.closeRate.value).orders;
    LogIsSafe(s2, entry.traceId, [OrderFilled, PositionClosed]);
    session.Record(entry.traceId, [OrderFilled, PositionClosed]);
    EvolvesTransitive(s0, s1, s2);
    EvolvesTransitive(s0, s2, session.View());
  }

  /** Taking one row off the work list moves it to the visited ones. */
  lemma OneFewer(all: set<nat>, rows: set<nat>, r: nat)
    requires rows <= all && r in rows
    ensures all - (rows - {r}) == all - rows + {r}
  {
  }

  /** Where the first loop stands: the visited rows are settled and nothing was undone. */
  ghost predicate OrderProgress(s: Store, t: Store, remote: Oracle, now: Time, done: set<OrderId>, count: nat) {
    && OrdersDone(s, t, remote, now, done, count)
    && Valid(t) && Evolves(s, t) && (UniqueEntries(s) ==> UniqueEntries(t))
  }

  method NextOrder(session: Session, remote: Oracle, now: Time, r: OrderId, ghost s: Store, ghost done: set<OrderId>,
                   count: nat) returns (more: nat)
    requires Valid(s) && OrderProgress(s, session.View(), remote, now, done, count)
    requires r < |s.orders| && r !in done
    modifies session
    ensures OrderProgress(s, session.View(), remote, now, done + {r}, more)
  {
    ghost var before := session.View();
    var filled := VisitOrder(session, remote, now, r, s, done, count);
    EvolvesTransitive(s, before, session.View());
    more := count + if filled then 1 else 0;
  }

  /** The first loop, over a snapshot of the stale rows. */
  method ReconcileOrders(session: Session, remote: Oracle, now: Time, cutoff: Time) returns (reconciled: nat)
    requires Valid(session.View())
    modifies session
    ensures OrderProgress(old(session.View()), session.View(), remote, now, StaleRows(old(session.View()), cutoff),
                          reconciled)
  {
    ghost var s := session.View();
    var rows := StaleRows(session.View(), cutoff);
    ghost var all := rows;
    reconciled := 0;
    OrdersStart(s, remote, now);
    assert all - rows == {};
    while rows != {}
      invariant rows <= all
      invariant OrderProgress(s, session.View(), remote, now, all - rows, reconciled)
      decreases |rows|
    {
      var r: OrderId :| r in rows;
      OneFewer(all, rows, r);
      reconciled := NextOrder(session, remote, now, r, s, all - rows, reconciled);
      rows := rows - {r};
    }
    assert all - rows == all;
  }

  /** Where the second loop stands. */
  ghost predicate PositionProgress(s: Store, t: Store, remote: Oracle, now: Time, done: set<PositionId>, count: nat) {
    && PositionsDone(s, t, remote, now, done, count)
    && Valid(t) && Evolves(s, t) && (UniqueEntries(s) ==> UniqueEntries(t))
  }

  method NextPosition(session: Session, remote: Oracle, now: Time, p: PositionId, ghost s: Store,
                      ghost done: set<PositionId>, count: nat) returns (more: nat)
    requires PositionProgress(s, session.View(), remote, now, done, count)
    requires Watched(s, p) && p !in done
    modifies session
    ensures PositionProgress(s, session.View(), remote, now, done + {p}, more)
  {
    ghost var before := session.View();
    var closed := VisitPosition(session, remote, now, p, s, done, count);
    EvolvesTransitive(s, before, session.View());
    more := count + if closed then 1 else 0;
  }

  /** The second loop, over a snapshot of the open positions. */
  method ReconcileOpenPositions(session: Session, remote: Oracle, now: Time) returns (reconciled: nat)
    requires Valid(session.View())
    modifies session
    ensures PositionProgress(old(session.View()), session.View(), remote, now, WatchedRows(old(session.View())),
                             reconciled)
  {
    ghost var s := session.View();
    var rows := WatchedRows(session.View());
    ghost var all := rows;
    reconciled := 0;
    PositionsStart(s, remote, now);
    assert all - rows == {};
    while rows != {}
      invariant rows <= all
      invariant PositionProgress(s, session.View(), remote, now, all - rows, reconciled)
      decreases |rows|
    {
      var p: PositionId :| p in rows;
      OneFewer(all, rows, p);
      reconciled := NextPosition(session, remote, now, p, s, all - rows, reconciled);
      rows := rows - {p};
    }
    assert all - rows == all;
  }

  /** `reconcile_submitted_orders`: both loops. The tables stay consistent, nothing is undone, entries
      stay unique, and the outcome is the one the pass specification names, whatever the row order: each row
      of age at least `staleAfter` is filled or alerted, as the exchange answers, and no younger one is touched. */
  method ReconcileSubmittedOrders(session: Session, remote: Oracle, now: Time, staleAfter: Time)
    returns (reconciled: nat, ghost mid: Store)
    requires Valid(session.View())
    modifies session
    ensures Pass(old(session.View()), mid, session.View(), remote, now, now - staleAfter, reconciled)
    ensures Reconciled(old(session.View()), session.View(), remote, now, staleAfter)
    ensures Counted(old(session.View()), remote, now, staleAfter, reconciled)
    ensures Valid(session.View()) && Evolves(old(session.View()), session.View())
    ensures old(UniqueEntries(session.View())) ==> UniqueEntries(session.View())
  {
    hide Valid, Evolves, UniqueEntries, OrdersDone, PositionsDone, Reconciled, Counted;
    var first := ReconcileOrders(session, remote, now, now - staleAfter);
    mid := session.View();
    var second := ReconcileOpenPositions(session, remote, now);
    EvolvesTransitive(old(session.View()), mid, session.View());
    reconciled := first + second;
    PassReconciles(old(session.View()), mid, session.View(), remote, now, staleAfter, reconciled);
    PassCounts(old(session.View()), mid, session.View(), remote, now, staleAfter, reconciled);
  }
}
