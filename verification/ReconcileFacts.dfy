/** One row at a time: each visit extends the row-order-free description of the pass. */
module ReconcileFacts {
  import opened Common
  import opened OrderFlow
  import opened OrderStore
  import opened ReconcileSpec

  // ----------------------------------------------------------------- events

  lemma LogAppends(t: Store, traceId: TraceId, kinds: seq<EventKind>)
    requires ReconciliationRequired !in kinds
    ensures forall x :: Alerted(Log(t, traceId, kinds), x) <==> Alerted(t, x)
    ensures |Log(t, traceId, kinds).events| == |t.events| + |kinds|
    ensures t.events <= Log(t, traceId, kinds).events
  {
    var u := Log(t, traceId, kinds);
    forall x | Alerted(u, x) ensures Alerted(t, x) {
      var i :| 0 <= i < |u.events| && u.events[i] == AuditEvent(x, ReconciliationRequired);
      if i >= |t.events| {
        assert kinds[i - |t.events|] == ReconciliationRequired;
      }
    }
  }

  /** Two events for a filled row add no alert. */
  lemma FillLogged(s: Store, t: Store, u: Store, newly: set<TraceId>, filled: nat, traceId: TraceId, kinds: seq<EventKind>)
    requires AlertsAfter(s, t, newly, filled)
    requires |kinds| == 2 && ReconciliationRequired !in kinds
    requires u.events == t.events
    ensures AlertsAfter(s, Log(u, traceId, kinds), newly, filled + 1)
  {
    LogAppends(t, traceId, kinds);
    assert Log(u, traceId, kinds).events == Log(t, traceId, kinds).events;
    forall x ensures Alerted(Log(u, traceId, kinds), x) <==> Alerted(Log(t, traceId, kinds), x) {
    }
  }

  lemma AlertAppends(t: Store, traceId: TraceId)
    ensures forall x :: Alerted(AlertOnce(t, traceId), x) <==> Alerted(t, x) || x == traceId
    ensures |AlertOnce(t, traceId).events| == |t.events| + if Alerted(t, traceId) then 0 else 1
    ensures t.events <= AlertOnce(t, traceId).events
  {
    var u := AlertOnce(t, traceId);
    if !Alerted(t, traceId) {
      var e := AuditEvent(traceId, ReconciliationRequired);
      assert u.events == t.events + [e];
      assert u.events[|t.events|] == e;
      forall x ensures Alerted(u, x) <==> Alerted(t, x) || x == traceId {
        assert AuditEvent(x, ReconciliationRequired) == e <==> x == traceId;
      }
    }
  }

  /** An alert adds one event exactly when its trace was never alerted before. */
  lemma AlertLogged(s: Store, t: Store, newly: set<TraceId>, filled: nat, traceId: TraceId)
    requires AlertsAfter(s, t, newly, filled)
    requires forall x :: x in newly ==> !Alerted(s, x)
    ensures AlertsAfter(s, AlertOnce(t, traceId), if Alerted(s, traceId) then newly else newly + {traceId}, filled)
  {
    hide AlertOnce;
    var u := AlertOnce(t, traceId);
    AlertAppends(t, traceId);
    PrefixOfPrefix(s.events, t.events, u.events);
    hide Alerted;
    if !Alerted(s, traceId) {
      if traceId in newly {
        assert newly + {traceId} == newly;
      } else {
        assert |newly + {traceId}| == |newly| + 1;
      }
    }
  }

  lemma PrefixOfPrefix<T>(a: seq<T>, b: seq<T>, c: seq<T>)
    requires a <= b <= c
    ensures a <= c
  {
  }

  // ---------------------------------------------------------------- phase 1

  lemma OrdersStart(s: Store, remote: Oracle, now: Time)
    ensures OrdersDone(s, s, remote, now, {}, 0)
  {
    assert FilledRows(s, remote, {}) == {};
    assert NewAlerts(s, remote, {}) == {};
  }

  /** A row not yet visited is still what it was, and the tables still say the same about it. */
  lemma UnvisitedRow(s: Store, t: Store, remote: Oracle, now: Time, done: set<OrderId>, count: nat, r: OrderId)
    requires OrdersDone(s, t, remote, now, done, count)
    requires r < |s.orders| && r !in done
    ensures t.orders[r] == s.orders[r]
    ensures Verdict(t, remote, r) == Verdict(s, remote, r)
    ensures HasEntry(t, r) <==> HasEntry(s, r)
  {
    forall p | 0 <= p < |s.positions|
      ensures t.positions[p].exitOrder == s.positions[p].exitOrder
      ensures t.positions[p].entryOrder == s.positions[p].entryOrder
    {
      assert t.positions[p] == PositionAfter(s, remote, now, done, p);
    }
    var added := t.positions[|s.positions|..];
    forall p | |s.positions| <= p < |t.positions|
      ensures t.positions[p].exitOrder == None && t.positions[p].entryOrder != r
    {
      assert added[p - |s.positions|] == t.positions[p];
    }
    assert HasExit(t, r) <==> HasExit(s, r);
  }

  lemma RowAlerted(s: Store, remote: Oracle, done: set<OrderId>, r: OrderId)
    requires forall x :: x in done ==> x < |s.orders|
    requires r < |s.orders| && r !in done && Verdict(s, remote, r).AlertOrder?
    ensures FilledRows(s, remote, done + {r}) == FilledRows(s, remote, done)
    ensures OpenedRows(s, remote, done + {r}) == OpenedRows(s, remote, done)
    ensures NewAlerts(s, remote, done + {r})
            == if Alerted(s, s.orders[r].traceId) then NewAlerts(s, remote, done)
               else NewAlerts(s, remote, done) + {s.orders[r].traceId}
  {
  }

  lemma NewAlertsAreNew(s: Store, remote: Oracle, done: set<OrderId>)
    requires forall r :: r in done ==> r < |s.orders|
    ensures forall x :: x in NewAlerts(s, remote, done) ==> !Alerted(s, x)
  {
  }

  lemma AlertStep(s: Store, t: Store, remote: Oracle, now: Time, done: set<OrderId>, count: nat, r: OrderId)
    requires OrdersDone(s, t, remote, now, done, count)
    requires r < |s.orders| && r !in done && Verdict(s, remote, r).AlertOrder?
    ensures OrdersDone(s, AlertOnce(t, s.orders[r].traceId), remote, now, done + {r}, count)
  {
    hide Alerted, AlertsAfter, Verdict, FilledRows, OpenedRows, NewAlerts, OpenedExactly, ClosedAfter;
    var u := AlertOnce(t, s.orders[r].traceId);
    RowAlerted(s, remote, done, r);
    NewAlertsAreNew(s, remote, done);
    AlertLogged(s, t, NewAlerts(s, remote, done), count, s.orders[r].traceId);
    forall p | 0 <= p < |s.positions| ensures u.positions[p] == PositionAfter(s, remote, now, done + {r}, p) {
      assert t.positions[p] == PositionAfter(s, remote, now, done, p);
    }
  }

  lemma RowFilled(s: Store, remote: Oracle, done: set<OrderId>, r: OrderId)
    requires forall x :: x in done ==> x < |s.orders|
    requires r < |s.orders| && r !in done && !Verdict(s, remote, r).AlertOrder?
    ensures |FilledRows(s, remote, done + {r})| == |FilledRows(s, remote, done)| + 1
    ensures NewAlerts(s, remote, done + {r}) == NewAlerts(s, remote, done)
    ensures OpenedRows(s, remote, done + {r})
            == OpenedRows(s, remote, done)
               + if Verdict(s, remote, r).FillEntry? && !HasEntry(s, r) then {r} else {}
  {
    assert FilledRows(s, remote, done + {r}) == FilledRows(s, remote, done) + {r};
  }

  lemma OneMoreOpened(s: Store, remote: Oracle, now: Time, rows: set<OrderId>, added: seq<Position>, r: OrderId)
    requires OpenedExactly(s, remote, now, rows, added)
    requires r < |s.orders| && r !in rows && Verdict(s, remote, r).FillEntry?
    requires EntryConfirmed(Verdict(s, remote, r).trade)
    ensures OpenedExactly(s, remote, now, rows + {r}, added + [NewEntry(s, r, Verdict(s, remote, r).trade, now)])
  {
    var more := added + [NewEntry(s, r, Verdict(s, remote, r).trade, now)];
    assert more[|added|].entryOrder == r;
    forall x | x in rows + {r} ensures exists k :: 0 <= k < |more| && more[k].entryOrder == x {
      if x != r {
        var k :| 0 <= k < |added| && added[k].entryOrder == x;
        assert more[k].entryOrder == x;
      }
    }
  }

  /** Filling an entry row: the order is filled, and a position appears if it had none. */
  lemma EntryStep(s: Store, t: Store, u: Store, remote: Oracle, now: Time, done: set<OrderId>, count: nat, r: OrderId)
    requires OrdersDone(s, t, remote, now, done, count)
    requires r < |s.orders| && r !in done && Verdict(s, remote, r).FillEntry?
    requires EntryConfirmed(Verdict(s, remote, r).trade)
    requires u.orders == t.orders[r := OrderAfter(s, remote, r)] && u.events == t.events
    requires u.positions == if HasEntry(s, r) then t.positions
                            else t.positions + [NewEntry(s, r, Verdict(s, remote, r).trade, now)]
    ensures OrdersDone(s, Log(u, s.orders[r].traceId, [OrderFilled, PositionOpened]), remote, now, done + {r}, count + 1)
  {
    hide AlertsAfter, Verdict, FilledRows, OpenedRows, NewAlerts, OpenedExactly, ClosedAfter, HasEntry, OrderAfter, NewEntry;
    var v := Log(u, s.orders[r].traceId, [OrderFilled, PositionOpened]);
    RowFilled(s, remote, done, r);
    FillLogged(s, t, u, NewAlerts(s, remote, done), count, s.orders[r].traceId, [OrderFilled, PositionOpened]);
    EntryAdded(s, t, v, remote, now, done, r);
    forall p | 0 <= p < |s.positions| ensures v.positions[p] == PositionAfter(s, remote, now, done + {r}, p) {
      assert t.positions[p] == PositionAfter(s, remote, now, done, p);
    }
  }

  lemma EntryAdded(s: Store, t: Store, v: Store, remote: Oracle, now: Time, done: set<OrderId>, r: OrderId)
    requires forall x :: x in done ==> x < |s.orders|
    requires |t.positions| >= |s.positions|
    requires OpenedExactly(s, remote, now, OpenedRows(s, remote, done), t.positions[|s.positions|..])
    requires r < |s.orders| && r !in done && Verdict(s, remote, r).FillEntry?
    requires EntryConfirmed(Verdict(s, remote, r).trade)
    requires v.positions == if HasEntry(s, r) then t.positions
                            else t.positions + [NewEntry(s, r, Verdict(s, remote, r).trade, now)]
    ensures OpenedExactly(s, remote, now, OpenedRows(s, remote, done + {r}), v.positions[|s.positions|..])
  {
    hide NewEntry, OpenedExactly;
    RowFilled(s, remote, done, r);
    var added := t.positions[|s.positions|..];
    if HasEntry(s, r) {
      assert OpenedRows(s, remote, done) + {} == OpenedRows(s, remote, done);
    } else {
      OneMoreOpened(s, remote, now, OpenedRows(s, remote, done), added, r);
      assert v.positions[|s.positions|..] == added + [NewEntry(s, r, Verdict(s, remote, r).trade, now)];
    }
  }

  /** Filling an exit row: the order is filled and its position closed. */
  lemma ExitStep(s: Store, t: Store, u: Store, remote: Oracle, now: Time, done: set<OrderId>, count: nat, r: OrderId,
                 p: PositionId)
    requires Valid(s) && OrdersDone(s, t, remote, now, done, count)
    requires r < |s.orders| && r !in done && Verdict(s, remote, r).FillExit?
    requires ClosedOut(Verdict(s, remote, r).trade)
    requires p < |t.positions| && t.positions[p].exitOrder == Some(r)
    requires u.orders == t.orders[r := OrderAfter(s, remote, r)] && u.events == t.events
    requires u.positions == t.positions[p := ClosedAfter(s, t.positions[p], r, Verdict(s, remote, r).trade, now)]
    ensures OrdersDone(s, Log(u, s.orders[r].traceId, [OrderFilled, PositionClosed]), remote, now, done + {r}, count + 1)
  {
    hide AlertsAfter, Verdict, FilledRows, OpenedRows, NewAlerts, OpenedExactly, OrderAfter, ValidPosition;
    var v := Log(u, s.orders[r].traceId, [OrderFilled, PositionClosed]);
    RowFilled(s, remote, done, r);
    FillLogged(s, t, u, NewAlerts(s, remote, done), count, s.orders[r].traceId, [OrderFilled, PositionClosed]);
    AddedHaveNoExit(s, t, remote, now, OpenedRows(s, remote, done));
    assert OpenedRows(s, remote, done) + {} == OpenedRows(s, remote, done);
    assert v.positions[|s.positions|..] == t.positions[|s.positions|..];
    forall q | 0 <= q < |s.positions| ensures v.positions[q] == PositionAfter(s, remote, now, done + {r}, q) {
      OtherExits(s, t, remote, now, done, p, q);
    }
  }

  lemma AddedHaveNoExit(s: Store, t: Store, remote: Oracle, now: Time, rows: set<OrderId>)
    requires |s.positions| <= |t.positions| && OpenedExactly(s, remote, now, rows, t.positions[|s.positions|..])
    ensures forall k :: |s.positions| <= k < |t.positions| ==> t.positions[k].exitOrder == None
  {
    var added := t.positions[|s.positions|..];
    forall k | |s.positions| <= k < |t.positions| ensures t.positions[k].exitOrder == None {
      assert added[k - |s.positions|] == t.positions[k];
    }
  }

  /** Every other position still has its own exit order, if any. */
  lemma OtherExits(s: Store, t: Store, remote: Oracle, now: Time, done: set<OrderId>, p: PositionId, q: PositionId)
    requires Valid(s) && p < |s.positions| && q < |s.positions| && |t.positions| >= |s.positions|
    requires t.positions[p] == PositionAfter(s, remote, now, done, p)
    requires t.positions[q] == PositionAfter(s, remote, now, done, q)
    ensures t.positions[q].exitOrder == s.positions[q].exitOrder
    ensures q != p && s.positions[p].exitOrder.Some? ==> s.positions[q].exitOrder != s.positions[p].exitOrder
  {
    if q < p {
      assert s.positions[q].exitOrder.Some? ==> s.positions[q].exitOrder != s.positions[p].exitOrder;
    } else if p < q && s.positions[p].exitOrder.Some? {
      assert s.positions[p].exitOrder != s.positions[q].exitOrder;
    }
  }

  // ---------------------------------------------------------------- phase 2

  lemma PositionsStart(s: Store, remote: Oracle, now: Time)
    ensures PositionsDone(s, s, remote, now, {}, 0)
  {
    assert ClosedPositions(s, remote, {}) == {};
    assert EntryAlerts(s, remote, {}) == {};
  }

  lemma UnvisitedPosition(s: Store, t: Store, remote: Oracle, now: Time, done: set<PositionId>, count: nat, p: PositionId)
    requires PositionsDone(s, t, remote, now, done, count)
    requires Watched(s, p) && p !in done
    ensures p < |t.positions| && t.positions[p] == s.positions[p]
    ensures t.orders[s.positions[p].entryOrder] == s.orders[s.positions[p].entryOrder]
    ensures Watched(t, p) && RemoteVerdict(t, remote, p) == RemoteVerdict(s, remote, p)
  {
    assert Settled(s, t, remote, now, done, p);
  }

  lemma LeaveStep(s: Store, t: Store, remote: Oracle, now: Time, done: set<PositionId>, count: nat, p: PositionId)
    requires PositionsDone(s, t, remote, now, done, count)
    requires Watched(s, p) && p !in done && RemoteVerdict(s, remote, p).Leave?
    ensures PositionsDone(s, t, remote, now, done + {p}, count)
  {
    var more := done + {p};
    assert ClosedPositions(s, remote, more) == ClosedPositions(s, remote, done);
    assert EntryAlerts(s, remote, more) == EntryAlerts(s, remote, done);
    forall q | 0 <= q < |s.positions| ensures Settled(s, t, remote, now, more, q) {
      assert Settled(s, t, remote, now, done, q);
    }
  }

  lemma PositionAlerted(s: Store, remote: Oracle, done: set<PositionId>, p: PositionId)
    requires forall q :: q in done ==> Watched(s, q)
    requires Watched(s, p) && p !in done && RemoteVerdict(s, remote, p).AlertEntry?
    ensures forall x :: x in EntryAlerts(s, remote, done) ==> !Alerted(s, x)
    ensures ClosedPositions(s, remote, done + {p}) == ClosedPositions(s, remote, done)
    ensures var trace := s.orders[s.positions[p].entryOrder].traceId;
            EntryAlerts(s, remote, done + {p})
            == if Alerted(s, trace) then EntryAlerts(s, remote, done) else EntryAlerts(s, remote, done) + {trace}
  {
  }

  lemma AlertEntryStep(s: Store, t: Store, remote: Oracle, now: Time, done: set<PositionId>, count: nat, p: PositionId)
    requires PositionsDone(s, t, remote, now, done, count)
    requires Watched(s, p) && p !in done && RemoteVerdict(s, remote, p).AlertEntry?
    ensures PositionsDone(s, AlertOnce(t, s.orders[s.positions[p].entryOrder].traceId), remote, now, done + {p}, count)
  {
    hide Alerted, AlertsAfter, RemoteVerdict, ClosedPositions, EntryAlerts, ExitRow, ClosedAfter;
    var trace := s.orders[s.positions[p].entryOrder].traceId;
    var u := AlertOnce(t, trace);
    PositionAlerted(s, remote, done, p);
    AlertLogged(s, t, EntryAlerts(s, remote, done), count, trace);
    forall q | 0 <= q < |s.positions| ensures Settled(s, u, remote, now, done + {p}, q) {
      assert Settled(s, t, remote, now, done, q);
    }
  }

  lemma CloseOutCounted(s: Store, remote: Oracle, done: set<PositionId>, p: PositionId)
    requires forall q :: q in done ==> Watched(s, q)
    requires Watched(s, p) && p !in done && RemoteVerdict(s, remote, p).CloseOut?
    ensures |ClosedPositions(s, remote, done + {p})| == |ClosedPositions(s, remote, done)| + 1
    ensures EntryAlerts(s, remote, done + {p}) == EntryAlerts(s, remote, done)
  {
    assert ClosedPositions(s, remote, done + {p}) == ClosedPositions(s, remote, done) + {p};
  }

  /** Closing a position the exchange already closed: a fresh exit order, then the position. */
  lemma CloseOutStep(s: Store, t: Store, u: Store, remote: Oracle, now: Time, done: set<PositionId>, count: nat,
                     p: PositionId)
    requires PositionsDone(s, t, remote, now, done, count)
    requires Watched(s, p) && p !in done && RemoteVerdict(s, remote, p).CloseOut?
    requires ClosedOut(RemoteVerdict(s, remote, p).trade)
    requires u.orders == t.orders + [ExitRow(s, p, RemoteVerdict(s, remote, p).trade, now)] && u.events == t.events
    requires |t.positions| == |s.positions|
    requires u.positions == t.positions[p := ClosedAfter(s, s.positions[p], |t.orders|, RemoteVerdict(s, remote, p).trade, now)]
    ensures PositionsDone(s, Log(u, s.orders[s.positions[p].entryOrder].traceId, [OrderFilled, PositionClosed]), remote,
                          now, done + {p}, count + 1)
  {
    hide AlertsAfter, RemoteVerdict, ClosedPositions, EntryAlerts;
    var trace := s.orders[s.positions[p].entryOrder].traceId;
    var v := Log(u, trace, [OrderFilled, PositionClosed]);
    CloseOutCounted(s, remote, done, p);
    FillLogged(s, t, u, EntryAlerts(s, remote, done), count, trace, [OrderFilled, PositionClosed]);
    forall q | 0 <= q < |s.positions| ensures Settled(s, v, remote, now, done + {p}, q) {
      assert Settled(s, t, remote, now, done, q);
    }
  }
}
