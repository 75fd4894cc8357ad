/** One reconciliation pass, specified without any row order: what happens to each stale order and to
    each open position depends only on the tables at the start of its phase. */
module ReconcileSpec {
  import opened Common
  import opened OrderFlow
  import opened OrderStore

  // --------------------------------------------------------------- alerting

  predicate Alerted(s: Store, traceId: TraceId) {
    AuditEvent(traceId, ReconciliationRequired) in s.events
  }

  /** `_alert_once`: one operator alert per trace, ever. */
  function AlertOnce(s: Store, traceId: TraceId): Store {
    if Alerted(s, traceId) then s else Log(s, traceId, [ReconciliationRequired])
  }

  // ----------------------------------------------------------- phase 1: rows

  datatype OrderVerdict = FillEntry(trade: RemoteTrade) | FillExit(trade: RemoteTrade) | AlertOrder

  predicate Stale(s: Store, cutoff: Time, r: OrderId) {
    r < |s.orders| && s.orders[r].status == Submitted && s.orders[r].createdAt <= cutoff
  }

  predicate EntryConfirmed(t: RemoteTrade) {
    && t.openRate.Some? && t.amount.Some? && t.amount.value > 0.0
    && t.hasOpenOrders == Some(false) && t.openFillDate.Some?
  }

  predicate ClosedOut(t: RemoteTrade) {
    t.closeRate.Some? && t.amount.Some?
  }

  predicate HasExit(s: Store, r: OrderId) {
    exists p :: 0 <= p < |s.positions| && s.positions[p].exitOrder == Some(r)
  }

  predicate HasEntry(s: Store, r: OrderId) {
    exists p :: 0 <= p < |s.positions| && s.positions[p].entryOrder == r
  }

  function Verdict(s: Store, remote: Oracle, r: OrderId): OrderVerdict
    requires r < |s.orders|
  {
    var o := s.orders[r];
    if o.tradeId.None? || remote(o.tradeId.value).None? then AlertOrder else
    var t := remote(o.tradeId.value).value;
    if t.pair != o.symbol then AlertOrder
    else if o.side == BUY && t.isOpen then (if EntryConfirmed(t) then FillEntry(t) else AlertOrder)
    else if o.side == SELL && !t.isOpen then (if ClosedOut(t) && HasExit(s, r) then FillExit(t) else AlertOrder)
    else AlertOrder
  }

  /** The verdict of a filled row names the fields it fills with. */
  lemma VerdictFacts(s: Store, remote: Oracle, r: OrderId)
    requires r < |s.orders|
    ensures Verdict(s, remote, r).FillEntry? ==> EntryConfirmed(Verdict(s, remote, r).trade) && s.orders[r].side == BUY
    ensures Verdict(s, remote, r).FillExit? ==> ClosedOut(Verdict(s, remote, r).trade) && s.orders[r].side == SELL && HasExit(s, r)
  {
  }

  function NewEntry(s: Store, r: OrderId, t: RemoteTrade, now: Time): Position
    requires r < |s.orders| && EntryConfirmed(t)
  {
    Position(s.orders[r].symbol, Open, r, None, t.openRate.value, t.amount.value, OrElse(t.openDate, now), None, None,
             None)
  }

  function OrderAfter(s: Store, remote: Oracle, r: OrderId): Order
    requires r < |s.orders|
  {
    match Verdict(s, remote, r)
    case FillEntry(t) => s.orders[r].(status := Filled, filledAmount := t.amount, avgPrice := t.openRate)
    case FillExit(t) => s.orders[r].(status := Filled, filledAmount := t.amount, avgPrice := t.closeRate)
    case AlertOrder => s.orders[r]
  }

  function ClosedAfter(s: Store, p: Position, r: OrderId, t: RemoteTrade, now: Time): Position
    requires ClosedOut(t)
  {
    ClosedBy(p, r, t.closeRate.value, t.profitAbs, OrElse(t.closeDate, now))
  }

  /** What phase 1 makes of an existing position: closed by its exit order if that row is filled. */
  function PositionAfter(s: Store, remote: Oracle, now: Time, done: set<OrderId>, p: PositionId): Position
    requires p < |s.positions|
  {
    var x := s.positions[p];
    if x.exitOrder.Some? && x.exitOrder.value in done && x.exitOrder.value < |s.orders|
       && Verdict(s, remote, x.exitOrder.value).FillExit?
    then ClosedAfter(s, x, x.exitOrder.value, Verdict(s, remote, x.exitOrder.value).trade, now)
    else x
  }

  /** Rows that phase 1 fills, and among them the entries that still need a position. */
  function FilledRows(s: Store, remote: Oracle, done: set<OrderId>): set<OrderId>
    requires forall r :: r in done ==> r < |s.orders|
  {
    set r | r in done && !Verdict(s, remote, r).AlertOrder?
  }

  function OpenedRows(s: Store, remote: Oracle, done: set<OrderId>): set<OrderId>
    requires forall r :: r in done ==> r < |s.orders|
  {
    set r | r in done && Verdict(s, remote, r).FillEntry? && !HasEntry(s, r)
  }

  /** Traces phase 1 alerts for the first time. */
  function NewAlerts(s: Store, remote: Oracle, done: set<OrderId>): set<TraceId>
    requires forall r :: r in done ==> r < |s.orders|
  {
    set r | r in done && Verdict(s, remote, r).AlertOrder? && !Alerted(s, s.orders[r].traceId) :: s.orders[r].traceId
  }

  /** The rows appended by phase 1: one position per newly opened entry, in any order. */
  ghost predicate OpenedExactly(s: Store, remote: Oracle, now: Time, rows: set<OrderId>, added: seq<Position>) {
    && (forall k :: 0 <= k < |added| ==>
          && added[k].entryOrder in rows && added[k].entryOrder < |s.orders|
          && Verdict(s, remote, added[k].entryOrder).FillEntry?
          && EntryConfirmed(Verdict(s, remote, added[k].entryOrder).trade)
          && added[k] == NewEntry(s, added[k].entryOrder, Verdict(s, remote, added[k].entryOrder).trade, now))
    && (forall j, k :: 0 <= j < k < |added| ==> added[j].entryOrder != added[k].entryOrder)
    && (forall r :: r in rows ==> exists k :: 0 <= k < |added| && added[k].entryOrder == r)
  }

  ghost predicate AlertsAfter(s: Store, t: Store, newly: set<TraceId>, filled: nat) {
    && s.events <= t.events
    && (forall x :: Alerted(t, x) <==> Alerted(s, x) || x in newly)
    && |t.events| == |s.events| + 2 * filled + |newly|
  }

  /** The state of phase 1 once exactly the rows in `done` have been visited. */
  ghost predicate OrdersDone(s: Store, t: Store, remote: Oracle, now: Time, done: set<OrderId>, count: nat) {
    && (forall r :: r in done ==> r < |s.orders|)
    && |t.orders| == |s.orders|
    && (forall r :: 0 <= r < |s.orders| ==> t.orders[r] == if r in done then OrderAfter(s, remote, r) else s.orders[r])
    && |t.positions| >= |s.positions|
    && (forall p :: 0 <= p < |s.positions| ==> t.positions[p] == PositionAfter(s, remote, now, done, p))
    && OpenedExactly(s, remote, now, OpenedRows(s, remote, done), t.positions[|s.positions|..])
    && count == |FilledRows(s, remote, done)|
    && AlertsAfter(s, t, NewAlerts(s, remote, done), count)
  }

  // ------------------------------------------------------ phase 2: positions

  datatype PositionVerdict = Leave | CloseOut(trade: RemoteTrade) | AlertEntry

  /** Positions the second query returns: open, entered by a BUY whose trade is known. */
  predicate Watched(s: Store, p: PositionId) {
    && p < |s.positions| && s.positions[p].status == Open && s.positions[p].entryOrder < |s.orders|
    && s.orders[s.positions[p].entryOrder].tradeId.Some?
    && s.orders[s.positions[p].entryOrder].side == BUY
  }

  function RemoteVerdict(s: Store, remote: Oracle, p: PositionId): PositionVerdict
    requires Watched(s, p)
  {
    var x := s.positions[p];
    var trade := remote(s.orders[x.entryOrder].tradeId.value);
    if trade.None? then AlertEntry
    else if trade.value.pair != x.symbol then AlertEntry
    else if trade.value.isOpen then Leave
    else if ClosedOut(trade.value) then CloseOut(trade.value)
    else AlertEntry
  }

  /** The synthetic exit order of a position the exchange closed by itself. */
  function ExitRow(s: Store, p: PositionId, t: RemoteTrade, now: Time): Order
    requires p < |s.positions| && s.positions[p].entryOrder < |s.orders|
  {
    var e := s.orders[s.positions[p].entryOrder];
    Order(e.traceId, e.decisionId, Some(t.tradeId), s.positions[p].symbol, SELL, Filled, s.positions[p].amount, t.amount,
          t.closeRate, now)
  }

  function ClosedPositions(s: Store, remote: Oracle, done: set<PositionId>): set<PositionId>
    requires forall p :: p in done ==> Watched(s, p)
  {
    set p | p in done && RemoteVerdict(s, remote, p).CloseOut?
  }

  function EntryAlerts(s: Store, remote: Oracle, done: set<PositionId>): set<TraceId>
    requires forall p :: p in done ==> Watched(s, p)
  {
    set p | p in done && RemoteVerdict(s, remote, p).AlertEntry?
            && !Alerted(s, s.orders[s.positions[p].entryOrder].traceId) :: s.orders[s.positions[p].entryOrder].traceId
  }

  /** What phase 2 makes of a position: closed by a fresh order holding the remote figures, or kept. */
  ghost predicate Settled(s: Store, t: Store, remote: Oracle, now: Time, done: set<PositionId>, p: PositionId)
    requires p < |s.positions| && p < |t.positions| && (p in done ==> Watched(s, p))
  {
    if p in done && RemoteVerdict(s, remote, p).CloseOut? then
      var trade := RemoteVerdict(s, remote, p).trade;
      && t.positions[p].exitOrder.Some?
      && |s.orders| <= t.positions[p].exitOrder.value < |t.orders|
      && t.orders[t.positions[p].exitOrder.value] == ExitRow(s, p, trade, now)
      && t.positions[p] == ClosedAfter(s, s.positions[p], t.positions[p].exitOrder.value, trade, now)
    else t.positions[p] == s.positions[p]
  }

  /** The state of phase 2 once exactly the positions in `done` have been visited. */
  ghost predicate PositionsDone(s: Store, t: Store, remote: Oracle, now: Time, done: set<PositionId>, count: nat) {
    && (forall p :: p in done ==> Watched(s, p))
    && s.orders <= t.orders && |t.orders| == |s.orders| + count
    && (forall o :: |s.orders| <= o < |t.orders| ==> t.orders[o].status == Filled && t.orders[o].side == SELL)
    && |t.positions| == |s.positions|
    && (forall p :: 0 <= p < |s.positions| ==> Settled(s, t, remote, now, done, p))
    && count == |ClosedPositions(s, remote, done)|
    && AlertsAfter(s, t, EntryAlerts(s, remote, done), count)
  }

  // ------------------------------------------------------------------- pass

  function StaleRows(s: Store, cutoff: Time): set<OrderId> {
    set r | 0 <= r < |s.orders| && Stale(s, cutoff, r)
  }

  function WatchedRows(s: Store): set<PositionId> {
    set p | 0 <= p < |s.positions| && Watched(s, p)
  }

  /** A whole pass from `s` to `t` reconciling `count` rows, through the state between its phases. */
  ghost predicate Pass(s: Store, mid: Store, t: Store, remote: Oracle, now: Time, cutoff: Time, count: nat) {
    exists first: nat, second: nat ::
      count == first + second
      && OrdersDone(s, mid, remote, now, StaleRows(s, cutoff), first)
      && PositionsDone(mid, t, remote, now, WatchedRows(mid), second)
  }
}
