/** The steps of the order flow and of the exchange webhooks over the audit tables, updated in place. */
module OrderFlow {
  import opened Common
  import opened OrderStore

  /** What the exchange bot reports about one trade; unknown when it cannot be reached. */
  datatype RemoteTrade = RemoteTrade(
    tradeId: TradeId,
    pair: Symbol,
    isOpen: bool,
    amount: Option<real>,
    hasOpenOrders: Option<bool>,
    openRate: Option<real>,
    openFillDate: Option<Time>,
    closeRate: Option<real>,
    profitAbs: Option<real>,
    openDate: Option<Time>,
    closeDate: Option<Time>
  )

  type Oracle = TradeId -> Option<RemoteTrade>

  datatype Payload = Payload(
    tradeId: TradeId,
    pair: Symbol,
    openRate: Option<real>,
    amount: Option<real>,
    openDate: Option<Time>,
    closeRate: Option<real>,
    profitAmount: Option<real>,
    closeDate: Option<Time>
  )

  function OrElse(t: Option<Time>, default: Time): Time {
    if t.Some? then t.value else default
  }

  // ---------------------------------------------------------------- lookups

  /** An order that already carries the trade. */
  predicate Carries(s: Store, o: OrderId, tradeId: TradeId, pair: Symbol, side: Side)
    requires o < |s.orders|
  {
    s.orders[o].tradeId == Some(tradeId) && s.orders[o].symbol == pair && s.orders[o].side == side
  }

  /** A submitted order still waiting to learn its trade. */
  predicate Waits(s: Store, o: OrderId, pair: Symbol, side: Side)
    requires o < |s.orders|
  {
    && s.orders[o].tradeId.None? && s.orders[o].status == Submitted
    && s.orders[o].symbol == pair && s.orders[o].side == side
  }

  /** The newest order carrying the trade; failing that, the newest one waiting for it. */
  ghost predicate Finds(s: Store, tradeId: TradeId, pair: Symbol, side: Side, found: Option<OrderId>) {
    if exists i :: 0 <= i < |s.orders| && Carries(s, i, tradeId, pair, side) then
      && found.Some? && found.value < |s.orders| && Carries(s, found.value, tradeId, pair, side)
      && (forall i :: 0 <= i < |s.orders| && Carries(s, i, tradeId, pair, side) ==>
            s.orders[i].createdAt <= s.orders[found.value].createdAt)
    else if exists i :: 0 <= i < |s.orders| && Waits(s, i, pair, side) then
      && found.Some? && found.value < |s.orders| && Waits(s, found.value, pair, side)
      && (forall i :: 0 <= i < |s.orders| && Waits(s, i, pair, side) ==>
            s.orders[i].createdAt <= s.orders[found.value].createdAt)
    else found.None?
  }

  /** Some position is to be closed by the order. */
  predicate Linked(s: Store, o: OrderId) {
    exists i :: 0 <= i < |s.positions| && s.positions[i].exitOrder == Some(o)
  }

  /** The positions a fill of the order may close: the one linked to it; failing that, any open one on the pair. */
  predicate MayClose(s: Store, o: OrderId, pair: Symbol, p: PositionId)
    requires p < |s.positions|
  {
    if Linked(s, o) then s.positions[p].exitOrder == Some(o) else OpenOn(s, pair, p)
  }

  predicate OpenOn(s: Store, pair: Symbol, p: PositionId)
    requires p < |s.positions|
  {
    s.positions[p].symbol == pair && s.positions[p].status == Open
  }

  /** What a fill may close depends on the positions alone, and a position the trade holds open on the pair always
      leaves something to close. */
  lemma FillChoices(s: Store, t: Store, o: OrderId, pair: Symbol, tradeId: TradeId)
    requires s.positions == t.positions
    ensures forall p :: 0 <= p < |s.positions| ==> MayClose(s, o, pair, p) == MayClose(t, o, pair, p)
    ensures (exists p :: 0 <= p < |t.positions| && OpenTrade(t, p, pair, tradeId)) ==>
              exists p :: 0 <= p < |t.positions| && MayClose(s, o, pair, p)
  {
    if Linked(s, o) {
      var i :| 0 <= i < |s.positions| && s.positions[i].exitOrder == Some(o);
      assert t.positions[i].exitOrder == Some(o);
      assert MayClose(s, o, pair, i);
    } else {
      assert !Linked(t, o);
      if p :| 0 <= p < |t.positions| && OpenTrade(t, p, pair, tradeId) {
        assert MayClose(s, o, pair, p);
      }
    }
  }

  predicate EntryKnown(s: Store, p: PositionId)
    requires p < |s.positions|
  {
    s.positions[p].entryOrder < |s.orders| && s.orders[s.positions[p].entryOrder].tradeId.Some?
  }

  /** The position was entered by the trade. */
  predicate Owns(s: Store, p: PositionId, tradeId: TradeId)
    requires p < |s.positions|
  {
    s.positions[p].entryOrder < |s.orders| && s.orders[s.positions[p].entryOrder].tradeId == Some(tradeId)
  }

  /** Whichever position a fill picks, it is the reported trade's own, exactly when the order is linked to a
      position of that trade or, linked to none, meets only positions of that trade open on the pair. */
  lemma FillClosesItsTradeIff(s: Store, o: OrderId, pair: Symbol, tradeId: TradeId)
    requires Valid(s)
    ensures (forall p :: 0 <= p < |s.positions| && MayClose(s, o, pair, p) ==> Owns(s, p, tradeId)) <==>
              || (exists p :: 0 <= p < |s.positions| && s.positions[p].exitOrder == Some(o) && Owns(s, p, tradeId))
              || (!Linked(s, o) && forall p :: 0 <= p < |s.positions| && OpenOn(s, pair, p) ==> Owns(s, p, tradeId))
  {
    if Linked(s, o) {
      var i :| 0 <= i < |s.positions| && s.positions[i].exitOrder == Some(o);
      assert MayClose(s, o, pair, i);
      assert forall p :: 0 <= p < |s.positions| && p != i ==> s.positions[p].exitOrder != s.positions[i].exitOrder;
    } else {
      forall p | 0 <= p < |s.positions| && OpenOn(s, pair, p)
        ensures MayClose(s, o, pair, p)
      {
      }
    }
  }

  /** What a lookup answers, row by row: never an older order of the trade than another, and an order of no trade
      only when none has this one, when it is submitted and none such is newer. */
  lemma FoundRow(s: Store, tradeId: TradeId, pair: Symbol, side: Side, found: Option<OrderId>)
    requires Finds(s, tradeId, pair, side, found)
    ensures found.None? <==>
              forall i :: 0 <= i < |s.orders| ==>
                var o := s.orders[i];
                o.symbol != pair || o.side != side
                || (o.tradeId != Some(tradeId) && (o.tradeId != None || o.status != Submitted))
    ensures found.Some? ==>
              && found.value < |s.orders|
              && var x := s.orders[found.value];
                 && x.symbol == pair && x.side == side
                 && (x.tradeId == Some(tradeId) || (x.tradeId == None && x.status == Submitted))
                 && (forall i :: 0 <= i < |s.orders| && s.orders[i].symbol == pair && s.orders[i].side == side ==>
                       var o := s.orders[i];
                       && (o.tradeId == Some(tradeId) ==> x.tradeId == Some(tradeId) && o.createdAt <= x.createdAt)
                       && (x.tradeId == None && o.tradeId == None && o.status == Submitted ==> o.createdAt <= x.createdAt))
  {
    assert forall i :: 0 <= i < |s.orders| ==>
      (Carries(s, i, tradeId, pair, side) <==>
         s.orders[i].symbol == pair && s.orders[i].side == side && s.orders[i].tradeId == Some(tradeId));
    assert forall i :: 0 <= i < |s.orders| ==>
      (Waits(s, i, pair, side) <==>
         s.orders[i].symbol == pair && s.orders[i].side == side && s.orders[i].tradeId == None
         && s.orders[i].status == Submitted);
  }

  /** A position is the trade's exactly when it is open on the pair and entered by a BUY order of the trade. */
  lemma OpenTradeIsOwned(s: Store, p: PositionId, pair: Symbol, tradeId: TradeId)
    requires Valid(s) && p < |s.positions|
    ensures OpenTrade(s, p, pair, tradeId) <==> OpenOn(s, pair, p) && Owns(s, p, tradeId)
  {
    PositionIsValid(s, p);
  }

  function Matched(s: Store, o: OrderId, tradeId: TradeId): Store
    requires o < |s.orders|
  {
    s.(orders := s.orders[o := s.orders[o].(tradeId := Some(tradeId))])
  }

  class Session {
    var orders: seq<Order>
    var positions: seq<Position>
    var events: seq<AuditEvent>

    function View(): Store
      reads this
    {
      Store(orders, positions, events)
    }

    method Record(traceId: TraceId, kinds: seq<EventKind>)
      modifies this`events
      ensures View() == Log(old(View()), traceId, kinds)
    {
      events := events + seq(|kinds|, i requires 0 <= i < |kinds| => AuditEvent(traceId, kinds[i]));
    }

    /** `_find_order`: match by trade id, else adopt a waiting order and teach it the trade. */
    method FindOrder(tradeId: TradeId, pair: Symbol, side: Side) returns (found: Option<OrderId>)
      requires Valid(View())
      modifies this`orders
      ensures Finds(old(View()), tradeId, pair, side, found)
      ensures View() == if found.None? then old(View()) else Matched(old(View()), found.value, tradeId)
      ensures found.Some? ==> found.value < |orders| && Carries(View(), found.value, tradeId, pair, side)
      ensures Valid(View()) && Evolves(old(View()), View())
      ensures old(UniqueEntries(View())) ==> UniqueEntries(View())
    {
      found := None;
      for i := 0 to |orders|
        invariant found.None? ==> forall k :: 0 <= k < i ==> !Carries(View(), k, tradeId, pair, side)
        invariant found.Some? ==> found.value < i && Carries(View(), found.value, tradeId, pair, side)
        invariant found.Some? ==> forall k :: 0 <= k < i && Carries(View(), k, tradeId, pair, side) ==>
                                                orders[k].createdAt <= orders[found.value].createdAt
        invariant View() == old(View())
      {
        if Carries(View(), i, tradeId, pair, side)
           && (found.None? || orders[found.value].createdAt < orders[i].createdAt) {
          found := Some(i);
        }
      }
      if found.Some? {
        assert Matched(View(), found.value, tradeId) == View();
        return;
      }
      for i := 0 to |orders|
        invariant found.None? ==> forall k :: 0 <= k < i ==> !Waits(View(), k, pair, side)
        invariant found.Some? ==> found.value < i && Waits(View(), found.value, pair, side)
        invariant found.Some? ==> forall k :: 0 <= k < i && Waits(View(), k, pair, side) ==>
                                                orders[k].createdAt <= orders[found.value].createdAt
        invariant View() == old(View())
      {
        if Waits(View(), i, pair, side) && (found.None? || orders[found.value].createdAt < orders[i].createdAt) {
          found := Some(i);
        }
      }
      if found.Some? {
        var row := orders[found.value].(tradeId := Some(tradeId));
        TouchOrderIsSafe(View(), found.value, row);
        orders := orders[found.value := row];
      }
    }

    /** The position an order already closes, if any. */
    method FindByExit(o: OrderId) returns (p: Option<PositionId>)
      ensures p.Some? ==> p.value < |positions| && positions[p.value].exitOrder == Some(o)
      ensures p.None? ==> forall i :: 0 <= i < |positions| ==> positions[i].exitOrder != Some(o)
    {
      p := None;
      for i := 0 to |positions|
        invariant p.None? ==> forall k :: 0 <= k < i ==> positions[k].exitOrder != Some(o)
        invariant p.Some? ==> p.value < i && positions[p.value].exitOrder == Some(o)
      {
        if positions[i].exitOrder == Some(o) {
          p := Some(i);
        }
      }
    }

    /** Some open position on the pair. */
    method FindOpen(pair: Symbol) returns (p: Option<PositionId>)
      ensures p.Some? ==> p.value < |positions| && positions[p.value].symbol == pair && positions[p.value].status == Open
      ensures p.None? ==> forall i :: 0 <= i < |positions| && positions[i].symbol == pair ==> positions[i].status == Closed
    {
      p := None;
      for i := 0 to |positions|
        invariant p.None? ==> forall k :: 0 <= k < i && positions[k].symbol == pair ==> positions[k].status == Closed
        invariant p.Some? ==> p.value < i && positions[p.value].symbol == pair && positions[p.value].status == Open
      {
        if positions[i].symbol == pair && positions[i].status == Open {
          p := Some(i);
        }
      }
    }

    /** Some open position on the pair whose entry order carries the trade. */
    method FindTrade(pair: Symbol, tradeId: TradeId) returns (p: Option<PositionId>)
      requires Valid(View())
      ensures p.Some? ==> p.value < |positions| && OpenTrade(View(), p.value, pair, tradeId)
      ensures p.None? ==> forall i :: 0 <= i < |positions| ==> !OpenTrade(View(), i, pair, tradeId)
    {
      p := None;
      for i := 0 to |positions|
        invariant p.None? ==> forall k :: 0 <= k < i ==> !OpenTrade(View(), k, pair, tradeId)
        invariant p.Some? ==> p.value < i && OpenTrade(View(), p.value, pair, tradeId)
      {
        assert ValidPosition(View(), positions[i]);
        if OpenTrade(View(), i, pair, tradeId) {
          p := Some(i);
        }
      }
    }

    // -------------------------------------------------------------- webhooks

    /** `_handle_entry_fill`. It never looks for an existing position, so a repeated delivery adds a
        second one: entries stay unique exactly when the matched order had no position yet. */
    method HandleEntryFill(payload: Payload, now: Time) returns (filled: Option<OrderId>)
      requires Valid(View())
      modifies this
      ensures Valid(View()) && Evolves(old(View()), View())
      ensures filled.Some? <==>
                payload.openRate.Some? && payload.amount.Some?
                && !Finds(old(View()), payload.tradeId, payload.pair, BUY, None)
      ensures filled.None? ==>
                && positions == old(positions) && events == old(events) && |orders| == |old(orders)|
                && forall i :: 0 <= i < |orders| ==> orders[i] == old(orders)[i].(tradeId := orders[i].tradeId)
      ensures filled.Some? ==>
                && Finds(old(View()), payload.tradeId, payload.pair, BUY, filled)
                && filled.value < |orders| == |old(orders)|
                && orders == old(orders)[filled.value := orders[filled.value]]
                && orders[filled.value].status == Filled && orders[filled.value].avgPrice == payload.openRate
                && positions == old(positions) + [Position(payload.pair, Open, filled.value, None, payload.openRate.value,
                                                           payload.amount.value, OrElse(payload.openDate, now), None,
                                                           None, None)]
                && events == old(events) + [AuditEvent(orders[filled.value].traceId, OrderFilled),
                                            AuditEvent(orders[filled.value].traceId, PositionOpened)]
      ensures filled.Some? ==>
                (UniqueEntries(View()) <==>
                   old(UniqueEntries(View()))
                   && forall i :: 0 <= i < |old(positions)| ==> old(positions)[i].entryOrder != filled.value)
    {
      hide Valid, Evolves;
      var order := FindOrder(payload.tradeId, payload.pair, BUY);
      if order.None? || payload.openRate.None? || payload.amount.None? {
        return None;
      }
      ghost var s0 := View();
      FillEntry(order.value, payload.openRate.value, payload.amount.value, OrElse(payload.openDate, now));
      EvolvesTransitive(old(View()), s0, View());
      filled := order;
    }

    /** The part of an entry fill after the order is known. */
    method FillEntry(o: OrderId, price: real, amount: real, openedAt: Time)
      requires Valid(View()) && o < |orders| && orders[o].side == BUY
      modifies this
      ensures View() == Log(OpenPosition(FillOrder(old(View()), o, amount, price), o, price, amount, openedAt),
                            old(orders)[o].traceId, [OrderFilled, PositionOpened])
      ensures Valid(View()) && Evolves(old(View()), View())
      ensures UniqueEntries(View()) <==>
                old(UniqueEntries(View()))
                && forall i :: 0 <= i < |old(positions)| ==> old(positions)[i].entryOrder != o
    {
      ghost var s0 := View();
      BuyClosesNothing(s0, o);
      FillOrderIsSafe(s0, o, amount, price);
      orders := orders[o := orders[o].(status := Filled, filledAmount := Some(amount), avgPrice := Some(price))];
      ghost var s1 := View();
      OpenPositionIsSafe(s1, o, price, amount, openedAt);
      positions := positions + [Position(orders[o].symbol, Open, o, None, price, amount, openedAt, None, None, None)];
      ghost var s2 := View();
      LogIsSafe(s2, orders[o].traceId, [OrderFilled, PositionOpened]);
      Record(orders[o].traceId, [OrderFilled, PositionOpened]);
      EvolvesTransitive(s0, s1, s2);
      EvolvesTransitive(s0, s2, View());
    }

    /** `_handle_exit_fill`: a safety exit without a SELL order of ours gets a synthetic one. Whatever
        position it closes ends at the reported rate, by that order; no other position or order
        changes; and a complete payload about a trade we hold open always closes a position: the one linked
        to the order or else any open one on the pair, whichever trade entered it. */
    method HandleExitFill(payload: Payload, now: Time) returns (order: Option<OrderId>, closed: Option<PositionId>)
      requires Valid(View())
      modifies this
      ensures Valid(View()) && Evolves(old(View()), View())
      ensures order.None? ==> View() == old(View())
      ensures Finds(old(View()), payload.tradeId, payload.pair, SELL,
                    if order.Some? && order.value < |old(orders)| then order else None)
      ensures order.Some? ==>
                && order.value < |orders| <= |old(orders)| + 1
                && Carries(View(), order.value, payload.tradeId, payload.pair, SELL)
                && (forall i :: 0 <= i < |old(orders)| && i != order.value ==> orders[i] == old(orders)[i])
                && (|orders| > |old(orders)| ==> order.value == |old(orders)|)
                && (if payload.closeRate.Some? && payload.amount.Some? then
                      && orders[order.value].status == Filled && orders[order.value].filledAmount == payload.amount
                      && orders[order.value].avgPrice == payload.closeRate
                    else
                      && |orders| == |old(orders)|
                      && orders[order.value] == old(orders)[order.value].(tradeId := Some(payload.tradeId)))
      ensures closed.None? ==> positions == old(positions) && events == old(events)
      ensures closed.Some? ==>
                && order.Some? && closed.value < |old(positions)|
                && positions == old(positions)[closed.value := positions[closed.value]]
                && old(positions)[closed.value].symbol == payload.pair
                && MayClose(old(View()), order.value, payload.pair, closed.value)
                && positions[closed.value].status == Closed && positions[closed.value].exitOrder == order
                && positions[closed.value].exitPrice == payload.closeRate
                && positions[closed.value].pnl == payload.profitAmount
                && positions[closed.value].closedAt == Some(OrElse(payload.closeDate, now))
                && events == old(events) + [AuditEvent(orders[order.value].traceId, OrderFilled),
                                            AuditEvent(orders[order.value].traceId, PositionClosed)]
      ensures payload.closeRate.Some? && payload.amount.Some?
              && (exists i :: 0 <= i < |old(positions)| && OpenTrade(old(View()), i, payload.pair, payload.tradeId)) ==>
                closed.Some?
      ensures payload.closeRate.Some? && payload.amount.Some? && order.Some? && closed.None? ==>
                forall p :: 0 <= p < |old(positions)| ==> !MayClose(old(View()), order.value, payload.pair, p)
      ensures old(UniqueEntries(View())) ==> UniqueEntries(View())
    {
      hide Valid, Evolves, UniqueEntries, Finds, MayClose, OpenTrade;
      closed := None;
      order := FindOrder(payload.tradeId, payload.pair, SELL);
      if payload.closeRate.None? || payload.amount.None? {
        return;
      }
      ghost var s0 := View();
      EvolvesReflexive(s0);
      if order.None? {
        order := AnchorExit(payload, now);
        if order.None? {
          assert View() == s0;
          return;
        }
      }
      ghost var s1 := View();
      closed := CloseFilled(order.value, payload.closeRate.value, payload.amount.value, payload.profitAmount,
                            OrElse(payload.closeDate, now));
      EvolvesTransitive(old(View()), s0, s1);
      EvolvesTransitive(old(View()), s1, View());
      FillChoices(s1, old(View()), order.value, payload.pair, payload.tradeId);
    }

    /** A synthetic SELL order for a safety exit, anchored to the entry of the open position. */
    method AnchorExit(payload: Payload, now: Time) returns (order: Option<OrderId>)
      requires Valid(View()) && payload.amount.Some? && payload.closeRate.Some?
      modifies this`orders
      ensures Valid(View()) && Evolves(old(View()), View())
      ensures old(UniqueEntries(View())) ==> UniqueEntries(View())
      ensures order.None? ==> orders == old(orders)
      ensures order.None? <==>
                forall i :: 0 <= i < |positions| ==> !OpenTrade(old(View()), i, payload.pair, payload.tradeId)
      ensures order.Some? ==>
                && order.value == |old(orders)| && |orders| == |old(orders)| + 1 && old(orders) <= orders
                && Carries(View(), order.value, payload.tradeId, payload.pair, SELL)
                && (exists i ::
                      && 0 <= i < |positions|
                      && OpenTrade(old(View()), i, payload.pair, payload.tradeId)
                      && orders[order.value].traceId == orders[positions[i].entryOrder].traceId)
    {
      var position := FindTrade(payload.pair, payload.tradeId);
      if position.None? {
        return None;
      }
      var entry := orders[positions[position.value].entryOrder];
      var row := Order(entry.traceId, entry.decisionId, Some(payload.tradeId), payload.pair, SELL, Filled,
                       positions[position.value].amount, payload.amount, payload.closeRate, now);
      AddOrderIsSafe(View(), row);
      orders := orders + [row];
      order := Some(|orders| - 1);
    }

    /** Fills a SELL order and closes the position it is linked to, or else some open position on its
        pair; without either, only the order changes. */
    method CloseFilled(o: OrderId, price: real, amount: real, pnl: Option<real>, closedAt: Time)
      returns (closed: Option<PositionId>)
      requires Valid(View()) && o < |orders| && orders[o].side == SELL
      modifies this
      ensures Valid(View()) && Evolves(old(View()), View())
      ensures closed.None? ==>
                && View() == FillOrder(old(View()), o, amount, price)
                && forall i :: 0 <= i < |positions| ==> !MayClose(old(View()), o, orders[o].symbol, i)
      ensures closed.Some? ==>
                && closed.value < |old(positions)|
                && old(positions)[closed.value].symbol == old(orders)[o].symbol
                && MayClose(old(View()), o, old(orders)[o].symbol, closed.value)
                && orders == FillOrder(old(View()), o, amount, price).orders
                && positions == old(positions)[closed.value := ClosedBy(old(positions)[closed.value], o, price, pnl, closedAt)]
                && events == old(events) + [AuditEvent(orders[o].traceId, OrderFilled),
                                            AuditEvent(orders[o].traceId, PositionClosed)]
      ensures old(UniqueEntries(View())) ==> UniqueEntries(View())
    {
      ghost var s1 := View();
      var position := FindByExit(o);
      if position.None? {
        position := FindOpen(orders[o].symbol);
      }
      orders := orders[o := orders[o].(status := Filled, filledAmount := Some(amount), avgPrice := Some(price))];
      if position.None? {
        FillOrderIsSafe(s1, o, amount, price);
        return None;
      }
      var p := position.value;
      assert ValidPosition(s1, positions[p]);
      CloseWithIsSafe(s1, p, o, amount, price, pnl, closedAt);
      positions := positions[p := ClosedBy(positions[p], o, price, pnl, closedAt)];
      ghost var s2 := View();
      LogIsSafe(s2, orders[o].traceId, [OrderFilled, PositionClosed]);
      Record(orders[o].traceId, [OrderFilled, PositionClosed]);
      EvolvesTransitive(s1, s2, View());
      closed := Some(p);
    }

    /** `_mark_cancelled`: only the status of the matched order changes, even if it was filled. */
    method MarkCancelled(payload: Payload, side: Side) returns (cancelled: Option<OrderId>)
      requires Valid(View())
      modifies this
      ensures Valid(View()) && Evolves(old(View()), View()) && positions == old(positions)
      ensures Finds(old(View()), payload.tradeId, payload.pair, side, cancelled)
      ensures cancelled.None? ==> View() == old(View())
      ensures cancelled.Some? ==>
                && cancelled.value < |orders|
                && orders == old(orders)[cancelled.value := old(orders)[cancelled.value].(
                                           tradeId := Some(payload.tradeId), status := Cancelled)]
                && events == old(events) + [AuditEvent(orders[cancelled.value].traceId, OrderCancelled)]
    {
      cancelled := FindOrder(payload.tradeId, payload.pair, side);
      if cancelled.None? {
        return;
      }
      var o := cancelled.value;
      ghost var s0 := View();
      var row := orders[o].(status := Cancelled);
      TouchOrderIsSafe(s0, o, row);
      orders := orders[o := row];
      ghost var s1 := View();
      LogIsSafe(s1, row.traceId, [OrderCancelled]);
      Record(row.traceId, [OrderCancelled]);
      EvolvesTransitive(old(View()), s0, s1);
      EvolvesTransitive(old(View()), s1, View());
    }

    // ------------------------------------------------------------ submission

    /** `_submit_entry_order`: the order is recorded whether or not the exchange bot took it; `response`
        is None when it could not be reached, and may or may not carry the trade id. */
    method SubmitEntryOrder(traceId: TraceId, decisionId: nat, symbol: Symbol, amount: real,
                            response: Option<Option<TradeId>>, now: Time)
      requires Valid(View())
      modifies this
      ensures Valid(View()) && Evolves(old(View()), View()) && positions == old(positions)
      ensures var sent := response.Some?;
              && orders == old(orders) + [Order(traceId, decisionId, if sent then response.value else None, symbol, BUY,
                                                if sent then Submitted else Failed, amount, None, None, now)]
              && events == old(events) + [AuditEvent(traceId, if sent then OrderSubmitted else OrderFailed)]
    {
      var tradeId: Option<TradeId> := None;
      var status, kind := Failed, OrderFailed;
      if response.Some? {
        tradeId, status, kind := response.value, Submitted, OrderSubmitted;
      }
      var row := Order(traceId, decisionId, tradeId, symbol, BUY, status, amount, None, None, now);
      AddOrderIsSafe(View(), row);
      orders := orders + [row];
      ghost var s1 := View();
      LogIsSafe(s1, traceId, [kind]);
      Record(traceId, [kind]);
      EvolvesTransitive(old(View()), s1, View());
    }

    /** `_submit_exit_order`: re-check the remote trade, ask for the exit, and link the order to the
        position only when it was accepted. Nothing is submitted without an open position whose
        entry trade is known. */
    method SubmitExitOrder(traceId: TraceId, decisionId: nat, symbol: Symbol, remote: Oracle, exitAccepted: bool,
                           now: Time) returns (submitted: Option<OrderId>)
      requires Valid(View())
      modifies this
      ensures Valid(View()) && Evolves(old(View()), View())
      ensures |orders| == |old(orders)| ==> View() == old(View())
      ensures (forall i :: 0 <= i < |old(positions)| && old(positions)[i].symbol == symbol ==>
                             old(positions)[i].status == Closed) ==> |orders| == |old(orders)|
      ensures (exists p :: 0 <= p < |old(positions)| && OpenOn(old(View()), symbol, p))
              && (forall p :: 0 <= p < |old(positions)| && OpenOn(old(View()), symbol, p) ==> EntryKnown(old(View()), p)) ==>
                |orders| > |old(orders)|
      ensures |orders| > |old(orders)| ==>
                && |orders| == |old(orders)| + 1 && orders[..|old(orders)|] == old(orders)
                && orders[|old(orders)|].side == SELL && orders[|old(orders)|].symbol == symbol
                && orders[|old(orders)|].traceId == traceId && orders[|old(orders)|].decisionId == decisionId
                && orders[|old(orders)|].tradeId.Some?
                && (exists p ::
                      && 0 <= p < |old(positions)|
                      && old(positions)[p].status == Open && old(positions)[p].symbol == symbol
                      && Owns(old(View()), p, orders[|old(orders)|].tradeId.value)
                      && positions == if submitted.None? then old(positions)
                                      else old(positions)[p := old(positions)[p].(exitOrder := submitted)])
                && orders[|old(orders)|].createdAt == now
                && orders[|old(orders)|].status == (if submitted.Some? then Submitted else Failed)
                && events == old(events) + [AuditEvent(traceId, if submitted.Some? then OrderSubmitted else OrderFailed)]
                && var trade := remote(orders[|old(orders)|].tradeId.value);
                   submitted.Some? <==> exitAccepted && trade.Some? && trade.value.pair == symbol && trade.value.isOpen
      ensures submitted.None? ==> positions == old(positions)
      ensures submitted.Some? ==>
                submitted.value == |old(orders)| < |orders|
    {
      hide Valid, Evolves;
      submitted := None;
      var position := FindOpen(symbol);
      EvolvesReflexive(View());
      if position.None? {
        return;
      }
      var p := position.value;
      PositionIsValid(View(), p);
      assert OpenOn(View(), symbol, p);
      if orders[positions[p].entryOrder].tradeId.None? {
        assert !EntryKnown(View(), p);
        return;
      }
      submitted := RequestExit(p, traceId, decisionId, remote, exitAccepted, now);
    }

    /** The part of an exit submission after the position and its trade are known. */
    method RequestExit(p: PositionId, traceId: TraceId, decisionId: nat, remote: Oracle, exitAccepted: bool, now: Time)
      returns (submitted: Option<OrderId>)
      requires Valid(View()) && p < |positions| && positions[p].status == Open
      requires positions[p].entryOrder < |orders| && orders[positions[p].entryOrder].tradeId.Some?
      modifies this
      ensures var symbol, tradeId := old(positions)[p].symbol, old(orders)[old(positions)[p].entryOrder].tradeId;
              var trade := remote(tradeId.value);
              && submitted == (if exitAccepted && trade.Some? && trade.value.pair == symbol && trade.value.isOpen
                               then Some(|old(orders)|) else None)
              && orders == old(orders) + [Order(traceId, decisionId, tradeId, symbol, SELL,
                                                if submitted.Some? then Submitted else Failed, old(positions)[p].amount,
                                                None, None, now)]
      ensures positions == if submitted.Some? then old(positions)[p := old(positions)[p].(exitOrder := submitted)]
                           else old(positions)
      ensures events == old(events) + [AuditEvent(traceId, if submitted.Some? then OrderSubmitted else OrderFailed)]
      ensures Valid(View()) && Evolves(old(View()), View())
    {
      hide Valid, Evolves;
      submitted := None;
      FreshClosesNothing(View(), |orders|);
      var tradeId := orders[positions[p].entryOrder].tradeId;
      var trade := remote(tradeId.value);
      var accepted := trade.Some? && trade.value.pair == positions[p].symbol && trade.value.isOpen && exitAccepted;
      var row := Order(traceId, decisionId, tradeId, positions[p].symbol, SELL, if accepted then Submitted else Failed,
                       positions[p].amount, None, None, now);
      AddOrderIsSafe(View(), row);
      orders := orders + [row];
      ghost var s1 := View();
      if accepted {
        LinkExitIsSafe(s1, p, |orders| - 1);
        positions := positions[p := positions[p].(exitOrder := Some(|orders| - 1))];
        submitted := Some(|orders| - 1);
      }
      ghost var s2 := View();
      EvolvesReflexive(s1);
      EvolvesTransitive(old(View()), s1, s2);
      var kind := if accepted then OrderSubmitted else OrderFailed;
      LogIsSafe(s2, traceId, [kind]);
      Record(traceId, [kind]);
      EvolvesTransitive(old(View()), s2, View());
    }
  }

  predicate OpenTrade(s: Store, p: PositionId, pair: Symbol, tradeId: TradeId)
    requires p < |s.positions|
  {
    var x := s.positions[p];
    && x.symbol == pair && x.status == Open
    && x.entryOrder < |s.orders|
    && s.orders[x.entryOrder].tradeId == Some(tradeId) && s.orders[x.entryOrder].side == BUY
  }

  /** Pointing an open position at a new SELL order of its symbol is safe. */
  lemma LinkExitIsSafe(s: Store, p: PositionId, o: OrderId)
    requires Valid(s) && p < |s.positions| && o < |s.orders|
    requires s.positions[p].status == Open
    requires s.orders[o].side == SELL && s.orders[o].symbol == s.positions[p].symbol
    requires forall i :: 0 <= i < |s.positions| ==> s.positions[i].exitOrder != Some(o)
    ensures var t := s.(positions := s.positions[p := s.positions[p].(exitOrder := Some(o))]);
            Valid(t) && Evolves(s, t)
  {
    var t := s.(positions := s.positions[p := s.positions[p].(exitOrder := Some(o))]);
    forall i | 0 <= i < |t.positions| ensures ValidPosition(t, t.positions[i]) {
      assert ValidPosition(s, s.positions[i]);
    }
  }
}
