/** The audit tables shared by the order flow, the exchange webhooks and the reconciliation loop: what
    makes them consistent, and what every step may change. */
module OrderStore {
  import opened Common

  type TradeId = int
  type OrderId = nat
  type PositionId = nat
  type TraceId = nat

  datatype Side = BUY | SELL

  datatype OrderStatus = Submitted | Filled | Failed | Cancelled

  datatype Order = Order(
    traceId: TraceId,
    decisionId: nat,
    tradeId: Option<TradeId>,
    symbol: Symbol,
    side: Side,
    status: OrderStatus,
    requestedAmount: real,
    filledAmount: Option<real>,
    avgPrice: Option<real>,
    createdAt: Time
  )

  datatype PositionStatus = Open | Closed

  datatype Position = Position(
    symbol: Symbol,
    status: PositionStatus,
    entryOrder: OrderId,
    exitOrder: Option<OrderId>,
    entryPrice: real,
    amount: real,
    openedAt: Time,
    exitPrice: Option<real>,
    pnl: Option<real>,
    closedAt: Option<Time>
  )

  datatype EventKind =
    | OrderSubmitted | OrderFilled | OrderFailed | OrderCancelled
    | PositionOpened | PositionClosed | ReconciliationRequired

  datatype AuditEvent = AuditEvent(traceId: TraceId, kind: EventKind)

  /** A row's id is its index: rows are only ever appended, so new ids are fresh. */
  datatype Store = Store(orders: seq<Order>, positions: seq<Position>, events: seq<AuditEvent>)

  // ------------------------------------------------------------ consistency

  predicate ValidPosition(s: Store, p: Position) {
    && p.entryOrder < |s.orders|
    && s.orders[p.entryOrder].side == BUY && s.orders[p.entryOrder].symbol == p.symbol
    && (p.exitOrder.Some? ==>
          && p.exitOrder.value < |s.orders|
          && s.orders[p.exitOrder.value].side == SELL && s.orders[p.exitOrder.value].symbol == p.symbol)
    && (p.status == Closed ==>
          p.exitOrder.Some? && p.exitPrice.Some? && s.orders[p.exitOrder.value].avgPrice == p.exitPrice)
  }

  /** Entry and exit orders are of the right side and the position's own symbol, a closed position's
      exit price is its exit order's price, and no order closes two positions. */
  predicate Valid(s: Store) {
    && (forall i :: 0 <= i < |s.positions| ==> ValidPosition(s, s.positions[i]))
    && (forall i, j :: 0 <= i < j < |s.positions| && s.positions[i].exitOrder.Some? ==>
          s.positions[i].exitOrder != s.positions[j].exitOrder)
  }

  predicate SameOrder(a: Order, b: Order) {
    && a.traceId == b.traceId && a.decisionId == b.decisionId && a.symbol == b.symbol && a.side == b.side
    && a.requestedAmount == b.requestedAmount && a.createdAt == b.createdAt
    && (a.tradeId.Some? ==> a.tradeId == b.tradeId)
  }

  predicate SamePosition(a: Position, b: Position) {
    && a.symbol == b.symbol && a.entryOrder == b.entryOrder && a.entryPrice == b.entryPrice
    && a.amount == b.amount && a.openedAt == b.openedAt
    && (a.status == Closed ==> b.status == Closed)
  }

  /** What no step undoes: rows are never removed, a closed position never reopens, its entry never
      changes, a matched order keeps its trade, and the audit trail only grows. */
  predicate Evolves(a: Store, b: Store) {
    && |a.orders| <= |b.orders| && |a.positions| <= |b.positions|
    && (forall i :: 0 <= i < |a.orders| ==> SameOrder(a.orders[i], b.orders[i]))
    && (forall i :: 0 <= i < |a.positions| ==> SamePosition(a.positions[i], b.positions[i]))
    && a.events <= b.events
  }

  lemma EvolvesReflexive(a: Store)
    ensures Evolves(a, a)
  {
  }

  lemma EvolvesTransitive(a: Store, b: Store, c: Store)
    requires Evolves(a, b) && Evolves(b, c)
    ensures Evolves(a, c)
  {
    forall i | 0 <= i < |a.orders| ensures SameOrder(a.orders[i], c.orders[i]) {
      assert SameOrder(a.orders[i], b.orders[i]) && SameOrder(b.orders[i], c.orders[i]);
    }
    forall i | 0 <= i < |a.positions| ensures SamePosition(a.positions[i], c.positions[i]) {
      assert SamePosition(a.positions[i], b.positions[i]) && SamePosition(b.positions[i], c.positions[i]);
    }
  }

  /** At most one position per entry order. */
  predicate UniqueEntries(s: Store) {
    forall i, j :: 0 <= i < j < |s.positions| ==> s.positions[i].entryOrder != s.positions[j].entryOrder
  }

  // ------------------------------------------------------------ small steps

  function Log(s: Store, traceId: TraceId, kinds: seq<EventKind>): Store {
    s.(events := s.events + seq(|kinds|, i requires 0 <= i < |kinds| => AuditEvent(traceId, kinds[i])))
  }

  function AddOrder(s: Store, o: Order): Store {
    s.(orders := s.orders + [o])
  }

  /** Marks an order filled at a price. */
  function FillOrder(s: Store, o: OrderId, amount: real, price: real): Store
    requires o < |s.orders|
  {
    s.(orders := s.orders[o := s.orders[o].(status := Filled, filledAmount := Some(amount), avgPrice := Some(price))])
  }

  function OpenPosition(s: Store, o: OrderId, price: real, amount: real, openedAt: Time): Store
    requires o < |s.orders|
  {
    s.(positions := s.positions + [Position(s.orders[o].symbol, Open, o, None, price, amount, openedAt, None, None, None)])
  }

  function ClosedBy(p: Position, o: OrderId, price: real, pnl: Option<real>, closedAt: Time): Position {
    p.(status := Closed, exitOrder := Some(o), exitPrice := Some(price), pnl := pnl, closedAt := Some(closedAt))
  }

  /** Fills a SELL order and closes a position with it, at one price. */
  function CloseWith(s: Store, p: PositionId, o: OrderId, amount: real, price: real, pnl: Option<real>,
                     closedAt: Time): Store
    requires p < |s.positions| && o < |s.orders|
  {
    FillOrder(s, o, amount, price).(positions := s.positions[p := ClosedBy(s.positions[p], o, price, pnl, closedAt)])
  }

  lemma AddOrderIsSafe(s: Store, o: Order)
    requires Valid(s)
    ensures Valid(AddOrder(s, o)) && Evolves(s, AddOrder(s, o))
  {
    forall i | 0 <= i < |s.positions| ensures ValidPosition(AddOrder(s, o), s.positions[i]) {
      assert ValidPosition(s, s.positions[i]);
    }
  }

  lemma LogIsSafe(s: Store, traceId: TraceId, kinds: seq<EventKind>)
    requires Valid(s)
    ensures Valid(Log(s, traceId, kinds)) && Evolves(s, Log(s, traceId, kinds))
  {
    forall i | 0 <= i < |s.positions| ensures ValidPosition(Log(s, traceId, kinds), s.positions[i]) {
      assert ValidPosition(s, s.positions[i]);
    }
  }

  /** Rewriting an order without touching its identity or its price is safe. */
  lemma TouchOrderIsSafe(s: Store, o: OrderId, row: Order)
    requires Valid(s) && o < |s.orders| && SameOrder(s.orders[o], row) && row.avgPrice == s.orders[o].avgPrice
    ensures Valid(s.(orders := s.orders[o := row])) && Evolves(s, s.(orders := s.orders[o := row]))
  {
    var t := s.(orders := s.orders[o := row]);
    forall i | 0 <= i < |s.positions| ensures ValidPosition(t, s.positions[i]) {
      assert ValidPosition(s, s.positions[i]);
    }
  }

  /** Filling an order that closes no position is safe. */
  lemma FillOrderIsSafe(s: Store, o: OrderId, amount: real, price: real)
    requires Valid(s) && o < |s.orders|
    requires forall i :: 0 <= i < |s.positions| ==> s.positions[i].exitOrder != Some(o)
    ensures Valid(FillOrder(s, o, amount, price)) && Evolves(s, FillOrder(s, o, amount, price))
  {
    var t := FillOrder(s, o, amount, price);
    forall i | 0 <= i < |s.positions| ensures ValidPosition(t, s.positions[i]) {
      assert ValidPosition(s, s.positions[i]);
    }
  }

  lemma FreshClosesNothing(s: Store, o: OrderId)
    requires Valid(s) && o >= |s.orders|
    ensures forall i :: 0 <= i < |s.positions| ==> s.positions[i].exitOrder != Some(o)
  {
    forall i | 0 <= i < |s.positions| ensures s.positions[i].exitOrder != Some(o) {
      assert ValidPosition(s, s.positions[i]);
    }
  }

  lemma PositionIsValid(s: Store, p: PositionId)
    requires Valid(s) && p < |s.positions|
    ensures ValidPosition(s, s.positions[p])
  {
  }

  lemma BuyClosesNothing(s: Store, o: OrderId)
    requires Valid(s) && o < |s.orders| && s.orders[o].side == BUY
    ensures forall i :: 0 <= i < |s.positions| ==> s.positions[i].exitOrder != Some(o)
  {
    forall i | 0 <= i < |s.positions| ensures s.positions[i].exitOrder != Some(o) {
      assert ValidPosition(s, s.positions[i]);
    }
  }

  lemma OpenPositionIsSafe(s: Store, o: OrderId, price: real, amount: real, openedAt: Time)
    requires Valid(s) && o < |s.orders| && s.orders[o].side == BUY
    ensures Valid(OpenPosition(s, o, price, amount, openedAt)) && Evolves(s, OpenPosition(s, o, price, amount, openedAt))
    ensures UniqueEntries(OpenPosition(s, o, price, amount, openedAt)) <==>
              UniqueEntries(s) && forall i :: 0 <= i < |s.positions| ==> s.positions[i].entryOrder != o
  {
    var t := OpenPosition(s, o, price, amount, openedAt);
    forall i | 0 <= i < |t.positions| ensures ValidPosition(t, t.positions[i]) {
      if i < |s.positions| {
        assert ValidPosition(s, s.positions[i]);
      }
    }
    NewEntryUnique(s.positions, t.positions[|s.positions|], o);
  }

  lemma NewEntryUnique(positions: seq<Position>, p: Position, o: OrderId)
    requires p.entryOrder == o
    ensures var more := positions + [p];
            (forall i, j :: 0 <= i < j < |more| ==> more[i].entryOrder != more[j].entryOrder) <==>
              ((forall i, j :: 0 <= i < j < |positions| ==> positions[i].entryOrder != positions[j].entryOrder)
               && forall i :: 0 <= i < |positions| ==> positions[i].entryOrder != o)
  {
    var more := positions + [p];
    forall i | 0 <= i < |positions| ensures more[i] == positions[i] {
    }
    assert more[|positions|] == p;
    if forall i, j :: 0 <= i < j < |more| ==> more[i].entryOrder != more[j].entryOrder {
      forall i, j | 0 <= i < j < |positions| ensures positions[i].entryOrder != positions[j].entryOrder {
        assert more[i].entryOrder != more[j].entryOrder;
      }
      forall i | 0 <= i < |positions| ensures positions[i].entryOrder != o {
        assert more[i].entryOrder != more[|positions|].entryOrder;
      }
    }
  }

  /** Closing a position with an order that closes no other one is safe. */
  lemma CloseWithIsSafe(s: Store, p: PositionId, o: OrderId, amount: real, price: real, pnl: Option<real>, closedAt: Time)
    requires Valid(s) && p < |s.positions| && o < |s.orders|
    requires s.orders[o].side == SELL && s.orders[o].symbol == s.positions[p].symbol
    requires forall i :: 0 <= i < |s.positions| && i != p ==> s.positions[i].exitOrder != Some(o)
    ensures Valid(CloseWith(s, p, o, amount, price, pnl, closedAt))
    ensures Evolves(s, CloseWith(s, p, o, amount, price, pnl, closedAt))
    ensures UniqueEntries(s) ==> UniqueEntries(CloseWith(s, p, o, amount, price, pnl, closedAt))
  {
    var t := CloseWith(s, p, o, amount, price, pnl, closedAt);
    forall i | 0 <= i < |t.positions| ensures ValidPosition(t, t.positions[i]) {
      assert ValidPosition(s, s.positions[i]);
    }
    if UniqueEntries(s) {
      forall i, j | 0 <= i < j < |t.positions| ensures t.positions[i].entryOrder != t.positions[j].entryOrder {
        assert s.positions[i].entryOrder != s.positions[j].entryOrder;
      }
    }
  }
}
