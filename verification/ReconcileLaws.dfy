/** What a reconciliation pass guarantees: running it again changes nothing, and the order in which the
    database returned its rows cannot be told from the outcome. */
module ReconcileLaws {
  import opened Common
  import opened OrderFlow
  import opened OrderStore
  import opened ReconcileSpec

  // ------------------------------------------------------------ idempotence

  /** A pass links no position to an order that already existed. */
  lemma ExitsOnlyShrink(s: Store, mid: Store, t: Store, remote: Oracle, now: Time, cutoff: Time, first: nat, second: nat,
                        r: OrderId)
    requires OrdersDone(s, mid, remote, now, StaleRows(s, cutoff), first)
    requires PositionsDone(mid, t, remote, now, WatchedRows(mid), second)
    requires r < |s.orders| && HasExit(t, r)
    ensures HasExit(s, r)
  {
    var p :| 0 <= p < |t.positions| && t.positions[p].exitOrder == Some(r);
    assert Settled(mid, t, remote, now, WatchedRows(mid), p);
    assert mid.positions[p].exitOrder == Some(r);
    if p < |s.positions| {
      assert mid.positions[p] == PositionAfter(s, remote, now, StaleRows(s, cutoff), p);
    }
  }

  /** A row still stale after a pass was alerted by it, and no later look at it finds an exit. */
  lemma StillStale(s: Store, mid: Store, t: Store, remote: Oracle, now: Time, cutoff: Time, first: nat, second: nat,
                   r: OrderId)
    requires OrdersDone(s, mid, remote, now, StaleRows(s, cutoff), first)
    requires PositionsDone(mid, t, remote, now, WatchedRows(mid), second)
    requires Stale(t, cutoff, r)
    ensures r < |s.orders| && t.orders[r] == s.orders[r]
    ensures Verdict(t, remote, r).AlertOrder? && Alerted(t, t.orders[r].traceId)
  {
    assert r < |mid.orders| && t.orders[r] == mid.orders[r];
    assert r in StaleRows(s, cutoff) && mid.orders[r] == OrderAfter(s, remote, r);
    assert Verdict(s, remote, r).AlertOrder?;
    if !Alerted(s, s.orders[r].traceId) {
      assert s.orders[r].traceId in NewAlerts(s, remote, StaleRows(s, cutoff));
    }
    if HasExit(t, r) {
      ExitsOnlyShrink(s, mid, t, remote, now, cutoff, first, second, r);
    }
  }

  /** A position still open after a pass is open on the exchange too, or its trace was alerted. */
  lemma StillWatched(mid: Store, t: Store, remote: Oracle, now: Time, second: nat, p: PositionId)
    requires PositionsDone(mid, t, remote, now, WatchedRows(mid), second)
    requires Watched(t, p)
    ensures RemoteVerdict(t, remote, p).Leave?
            || (RemoteVerdict(t, remote, p).AlertEntry? && Alerted(t, t.orders[t.positions[p].entryOrder].traceId))
  {
    assert Settled(mid, t, remote, now, WatchedRows(mid), p);
    assert t.positions[p] == mid.positions[p];
    var e := mid.positions[p].entryOrder;
    assert e < |mid.orders| && t.orders[e] == mid.orders[e];
    assert p in WatchedRows(mid);
    if RemoteVerdict(mid, remote, p).AlertEntry? && !Alerted(mid, mid.orders[e].traceId) {
      assert mid.orders[e].traceId in EntryAlerts(mid, remote, WatchedRows(mid));
    }
  }

  lemma NothingAppended<T>(a: seq<T>, b: seq<T>)
    requires a <= b && |a| == |b|
    ensures a == b
  {
  }

  lemma OpenedForRows(s: Store, remote: Oracle, now: Time, rows: set<OrderId>, added: seq<Position>)
    requires OpenedExactly(s, remote, now, rows, added)
    ensures |added| > 0 ==> rows != {}
  {
    if |added| > 0 {
      assert added[0].entryOrder in rows;
    }
  }

  /** A first phase over rows that all stay alerted changes nothing. */
  lemma QuietOrders(s: Store, t: Store, remote: Oracle, now: Time, rows: set<OrderId>, count: nat)
    requires OrdersDone(s, t, remote, now, rows, count)
    requires forall r :: r in rows ==> Verdict(s, remote, r).AlertOrder? && Alerted(s, s.orders[r].traceId)
    ensures count == 0 && t == s
  {
    assert FilledRows(s, remote, rows) == {};
    assert NewAlerts(s, remote, rows) == {};
    NothingAppended(s.events, t.events);
    OpenedForRows(s, remote, now, OpenedRows(s, remote, rows), t.positions[|s.positions|..]);
    assert t.orders == s.orders;
    forall p | 0 <= p < |s.positions| ensures t.positions[p] == s.positions[p] {
      assert t.positions[p] == PositionAfter(s, remote, now, rows, p);
    }
    assert t.positions == s.positions;
  }

  lemma QuietPositions(s: Store, t: Store, remote: Oracle, now: Time, rows: set<PositionId>, count: nat)
    requires PositionsDone(s, t, remote, now, rows, count)
    requires forall p :: p in rows ==>
               RemoteVerdict(s, remote, p).Leave?
               || (RemoteVerdict(s, remote, p).AlertEntry? && Alerted(s, s.orders[s.positions[p].entryOrder].traceId))
    ensures count == 0 && t == s
  {
    assert ClosedPositions(s, remote, rows) == {};
    assert EntryAlerts(s, remote, rows) == {};
    NothingAppended(s.events, t.events);
    NothingAppended(s.orders, t.orders);
    forall p | 0 <= p < |s.positions| ensures t.positions[p] == s.positions[p] {
      assert Settled(s, t, remote, now, rows, p);
    }
    assert t.positions == s.positions;
  }

  /** Idempotence: with the exchange's answers and the clock held fixed, a second pass reconciles no row
      and changes no order, no position and no audit event. */
  lemma SecondPassDoesNothing(s: Store, mid: Store, t: Store, mid2: Store, u: Store, remote: Oracle, now: Time,
                              cutoff: Time, count: nat, again: nat)
    requires Pass(s, mid, t, remote, now, cutoff, count)
    requires Pass(t, mid2, u, remote, now, cutoff, again)
    ensures again == 0 && u == t
  {
    var first: nat, second: nat :|
      count == first + second
      && OrdersDone(s, mid, remote, now, StaleRows(s, cutoff), first)
      && PositionsDone(mid, t, remote, now, WatchedRows(mid), second);
    var third: nat, fourth: nat :|
      again == third + fourth
      && OrdersDone(t, mid2, remote, now, StaleRows(t, cutoff), third)
      && PositionsDone(mid2, u, remote, now, WatchedRows(mid2), fourth);
    forall r | r in StaleRows(t, cutoff)
      ensures Verdict(t, remote, r).AlertOrder? && Alerted(t, t.orders[r].traceId)
    {
      StillStale(s, mid, t, remote, now, cutoff, first, second, r);
    }
    QuietOrders(t, mid2, remote, now, StaleRows(t, cutoff), third);
    forall p | p in WatchedRows(t)
      ensures RemoteVerdict(t, remote, p).Leave?
              || (RemoteVerdict(t, remote, p).AlertEntry? && Alerted(t, t.orders[t.positions[p].entryOrder].traceId))
    {
      StillWatched(mid, t, remote, now, second, p);
    }
    QuietPositions(t, u, remote, now, WatchedRows(t), fourth);
  }

  // ------------------------------------------------------------- row order

  /** The same position, apart from the id of a freshly created exit order. */
  ghost predicate SameOutcome(a: Store, b: Store, p: PositionId, known: nat)
    requires p < |a.positions| && p < |b.positions|
  {
    || a.positions[p] == b.positions[p]
    || (&& a.positions[p].exitOrder.Some? && b.positions[p].exitOrder.Some?
        && known <= a.positions[p].exitOrder.value < |a.orders|
        && known <= b.positions[p].exitOrder.value < |b.orders|
        && a.orders[a.positions[p].exitOrder.value] == b.orders[b.positions[p].exitOrder.value]
        && a.positions[p].(exitOrder := None) == b.positions[p].(exitOrder := None))
  }

  /** Two stores that agree on everything but the ids and the order of rows appended after `s`. */
  ghost predicate SameUpToFreshIds(s: Store, a: Store, b: Store) {
    && |a.orders| == |b.orders| >= |s.orders| && a.orders[..|s.orders|] == b.orders[..|s.orders|]
    && |a.positions| == |b.positions| >= |s.positions|
    && (forall p :: 0 <= p < |s.positions| ==> SameOutcome(a, b, p, |s.orders|))
    && multiset(a.positions[|s.positions|..]) == multiset(b.positions[|s.positions|..])
    && |a.events| == |b.events| && (forall x :: Alerted(a, x) <==> Alerted(b, x))
  }

  /** A sequence without repetitions holds each of its elements once. */
  lemma {:induction false} DistinctCounts<T>(s: seq<T>, x: T)
    requires forall i, j :: 0 <= i < j < |s| ==> s[i] != s[j]
    ensures multiset(s)[x] == if x in s then 1 else 0
  {
    if s != [] {
      var front := s[..|s| - 1];
      assert s == front + [s[|s| - 1]];
      DistinctCounts(front, x);
    }
  }

  lemma OpenedTwice(s: Store, remote: Oracle, now: Time, rows: set<OrderId>, a: seq<Position>, b: seq<Position>, x: Position)
    requires OpenedExactly(s, remote, now, rows, a) && OpenedExactly(s, remote, now, rows, b)
    requires x in a
    ensures x in b
  {
    var k :| 0 <= k < |a| && a[k] == x;
    var j :| 0 <= j < |b| && b[j].entryOrder == a[k].entryOrder;
    assert b[j] == a[k];
  }

  /** Which positions a phase opens does not depend on the row order. */
  lemma OpenedRowsDetermineRows(s: Store, remote: Oracle, now: Time, rows: set<OrderId>, a: seq<Position>, b: seq<Position>)
    requires OpenedExactly(s, remote, now, rows, a) && OpenedExactly(s, remote, now, rows, b)
    ensures multiset(a) == multiset(b) && |a| == |b|
  {
    forall x: Position ensures multiset(a)[x] == multiset(b)[x] {
      forall i, j | 0 <= i < j < |a| ensures a[i] != a[j] {
        assert a[i].entryOrder != a[j].entryOrder;
      }
      forall i, j | 0 <= i < j < |b| ensures b[i] != b[j] {
        assert b[i].entryOrder != b[j].entryOrder;
      }
      DistinctCounts(a, x);
      DistinctCounts(b, x);
      if x in a {
        OpenedTwice(s, remote, now, rows, a, b, x);
      }
      if x in b {
        OpenedTwice(s, remote, now, rows, b, a, x);
      }
    }
    assert multiset(a) == multiset(b);
    assert |multiset(a)| == |a| && |multiset(b)| == |b|;
  }

  /** A freshly opened position is open on the exchange, so the second phase leaves it alone. */
  lemma FreshEntryIsLeft(s: Store, mid: Store, remote: Oracle, now: Time, rows: set<OrderId>, first: nat, p: PositionId)
    requires OrdersDone(s, mid, remote, now, rows, first)
    requires |s.positions| <= p < |mid.positions| && Watched(mid, p)
    ensures RemoteVerdict(mid, remote, p).Leave?
  {
    var x := mid.positions[|s.positions|..][p - |s.positions|];
    assert mid.positions[p] == x;
    var r := x.entryOrder;
    assert x == NewEntry(s, r, Verdict(s, remote, r).trade, now);
    assert mid.orders[r] == OrderAfter(s, remote, r);
  }

  /** The positions a second phase closes all existed before the pass. */
  lemma ClosesOnlyKnown(s: Store, mid: Store, remote: Oracle, now: Time, rows: set<OrderId>, first: nat)
    requires OrdersDone(s, mid, remote, now, rows, first)
    ensures forall p :: p in WatchedRows(mid) && !RemoteVerdict(mid, remote, p).Leave? ==> p < |s.positions|
  {
    forall p | p in WatchedRows(mid) && !RemoteVerdict(mid, remote, p).Leave? ensures p < |s.positions| {
      if p >= |s.positions| {
        FreshEntryIsLeft(s, mid, remote, now, rows, first, p);
      }
    }
  }

  lemma SameMiddle(s: Store, ma: Store, mb: Store, remote: Oracle, now: Time, rows: set<OrderId>, ca: nat, cb: nat)
    requires OrdersDone(s, ma, remote, now, rows, ca) && OrdersDone(s, mb, remote, now, rows, cb)
    ensures ca == cb && ma.orders == mb.orders && |ma.orders| == |s.orders|
    ensures |ma.positions| == |mb.positions| >= |s.positions|
    ensures forall p :: 0 <= p < |s.positions| ==> ma.positions[p] == mb.positions[p]
    ensures multiset(ma.positions[|s.positions|..]) == multiset(mb.positions[|s.positions|..])
    ensures |ma.events| == |mb.events| && forall x :: Alerted(ma, x) <==> Alerted(mb, x)
  {
    assert ma.orders == mb.orders;
    OpenedRowsDetermineRows(s, remote, now, OpenedRows(s, remote, rows), ma.positions[|s.positions|..],
                            mb.positions[|s.positions|..]);
  }

  /** Row order: two passes from the same tables, visiting their rows in any two orders, report the same
      count, write the same figures, open the same positions, alert the same traces and log as much. */
  lemma RowOrderIsInvisible(s: Store, ma: Store, a: Store, mb: Store, b: Store, remote: Oracle, now: Time, cutoff: Time,
                            na: nat, nb: nat)
    requires Pass(s, ma, a, remote, now, cutoff, na)
    requires Pass(s, mb, b, remote, now, cutoff, nb)
    ensures na == nb && SameUpToFreshIds(s, a, b)
  {
    var rows := StaleRows(s, cutoff);
    var a1: nat, a2: nat :|
      na == a1 + a2
      && OrdersDone(s, ma, remote, now, rows, a1) && PositionsDone(ma, a, remote, now, WatchedRows(ma), a2);
    var b1: nat, b2: nat :|
      nb == b1 + b2
      && OrdersDone(s, mb, remote, now, rows, b1) && PositionsDone(mb, b, remote, now, WatchedRows(mb), b2);
    SameMiddle(s, ma, mb, remote, now, rows, a1, b1);
    ClosesOnlyKnown(s, ma, remote, now, rows, a1);
    ClosesOnlyKnown(s, mb, remote, now, rows, b1);
    SameSecondPhase(|s.positions|, ma, a, mb, b, remote, now, a2, b2);
  }

  /** Two second phases over tables that agree on the positions either may close. */
  lemma SameSecondPhase(known: nat, ma: Store, a: Store, mb: Store, b: Store, remote: Oracle, now: Time, ca: nat, cb: nat)
    requires PositionsDone(ma, a, remote, now, WatchedRows(ma), ca) && PositionsDone(mb, b, remote, now, WatchedRows(mb), cb)
    requires ma.orders == mb.orders && |ma.positions| == |mb.positions| >= known
    requires forall p :: 0 <= p < known ==> ma.positions[p] == mb.positions[p]
    requires multiset(ma.positions[known..]) == multiset(mb.positions[known..])
    requires |ma.events| == |mb.events| && forall x :: Alerted(ma, x) <==> Alerted(mb, x)
    requires forall p :: p in WatchedRows(ma) && !RemoteVerdict(ma, remote, p).Leave? ==> p < known
    requires forall p :: p in WatchedRows(mb) && !RemoteVerdict(mb, remote, p).Leave? ==> p < known
    ensures ca == cb
    ensures |a.orders| == |b.orders| >= |ma.orders| && a.orders[..|ma.orders|] == b.orders[..|ma.orders|]
    ensures |a.positions| == |b.positions| >= known
    ensures forall p :: 0 <= p < known ==> SameOutcome(a, b, p, |ma.orders|)
    ensures multiset(a.positions[known..]) == multiset(b.positions[known..])
    ensures |a.events| == |b.events| && forall x :: Alerted(a, x) <==> Alerted(b, x)
  {
    hide Alerted, RemoteVerdict, ClosedPositions, EntryAlerts, ExitRow;
    var wa, wb := WatchedRows(ma), WatchedRows(mb);
    SameClosed(known, ma, mb, remote);
    SameAlerts(known, ma, mb, remote);
    SameAlerts(known, mb, ma, remote);
    assert EntryAlerts(ma, remote, wa) == EntryAlerts(mb, remote, wb);
    forall p | 0 <= p < known ensures SameOutcome(a, b, p, |ma.orders|) {
      assert Settled(ma, a, remote, now, wa, p) && Settled(mb, b, remote, now, wb, p);
      SameVerdict(ma, mb, remote, now, p);
    }
    Untouched(known, ma, a, remote, now, ca);
    Untouched(known, mb, b, remote, now, cb);
  }

  /** What the second phase does with a position depends on nothing but the position and the orders. */
  lemma SameVerdict(ma: Store, mb: Store, remote: Oracle, now: Time, p: PositionId)
    requires ma.orders == mb.orders && p < |ma.positions| && p < |mb.positions| && ma.positions[p] == mb.positions[p]
    ensures Watched(ma, p) <==> Watched(mb, p)
    ensures Watched(ma, p) ==> RemoteVerdict(ma, remote, p) == RemoteVerdict(mb, remote, p)
    ensures Watched(ma, p) && RemoteVerdict(ma, remote, p).CloseOut? ==>
              ClosedOut(RemoteVerdict(ma, remote, p).trade)
              && ExitRow(ma, p, RemoteVerdict(ma, remote, p).trade, now) == ExitRow(mb, p, RemoteVerdict(ma, remote, p).trade, now)
  {
  }

  lemma SameClosed(known: nat, ma: Store, mb: Store, remote: Oracle)
    requires ma.orders == mb.orders && |ma.positions| == |mb.positions| >= known
    requires forall p :: 0 <= p < known ==> ma.positions[p] == mb.positions[p]
    requires forall p :: p in WatchedRows(ma) && !RemoteVerdict(ma, remote, p).Leave? ==> p < known
    requires forall p :: p in WatchedRows(mb) && !RemoteVerdict(mb, remote, p).Leave? ==> p < known
    ensures ClosedPositions(ma, remote, WatchedRows(ma)) == ClosedPositions(mb, remote, WatchedRows(mb))
  {
    forall p | 0 <= p < known ensures p in WatchedRows(ma) <==> p in WatchedRows(mb) {
    }
  }

  lemma SameAlerts(known: nat, ma: Store, mb: Store, remote: Oracle)
    requires ma.orders == mb.orders && |ma.positions| == |mb.positions| >= known
    requires forall p :: 0 <= p < known ==> ma.positions[p] == mb.positions[p]
    requires forall x :: Alerted(ma, x) <==> Alerted(mb, x)
    requires forall p :: p in WatchedRows(ma) && !RemoteVerdict(ma, remote, p).Leave? ==> p < known
    ensures EntryAlerts(ma, remote, WatchedRows(ma)) <= EntryAlerts(mb, remote, WatchedRows(mb))
  {
    forall x | x in EntryAlerts(ma, remote, WatchedRows(ma)) ensures x in EntryAlerts(mb, remote, WatchedRows(mb)) {
      var p :| p in WatchedRows(ma) && RemoteVerdict(ma, remote, p).AlertEntry?
               && !Alerted(ma, ma.orders[ma.positions[p].entryOrder].traceId)
               && ma.orders[ma.positions[p].entryOrder].traceId == x;
      assert p in WatchedRows(mb) && RemoteVerdict(mb, remote, p).AlertEntry?;
    }
  }

  lemma Untouched(known: nat, mid: Store, t: Store, remote: Oracle, now: Time, count: nat)
    requires PositionsDone(mid, t, remote, now, WatchedRows(mid), count) && known <= |mid.positions|
    requires forall p :: p in WatchedRows(mid) && !RemoteVerdict(mid, remote, p).Leave? ==> p < known
    ensures t.positions[known..] == mid.positions[known..]
  {
    forall p | known <= p < |mid.positions| ensures t.positions[p] == mid.positions[p] {
      assert Settled(mid, t, remote, now, WatchedRows(mid), p);
    }
  }
}
