/** A sequence of submissions, fills and one reconciliation after which a late exit fill closes another trade's
    position. */
module OrderExamples {
  import opened Common
  import opened OrderFlow
  import opened OrderStore
  import opened ReconcileSpec
  import opened Reconciliation

  const PAIR: Symbol := 0

  function EntryPayload(tradeId: TradeId): Payload {
    Payload(tradeId, PAIR, Some(100.0), Some(1.0), None, None, None, None)
  }

  const EXIT_OF_7: Payload := Payload(7, PAIR, None, Some(1.0), None, Some(110.0), Some(10.0), None)

  function Remote(isOpen: bool): RemoteTrade {
    RemoteTrade(7, PAIR, isOpen, Some(1.0), Some(false), Some(100.0), None, Some(110.0), Some(10.0), None, None)
  }

  const STILL_OPEN: Oracle := tradeId => if tradeId == 7 then Some(Remote(true)) else None

  /** Trade 7 was bought, its exit accepted as order 1, and a later exit of it failed as order 2. */
  predicate TwoExits(s: Store) {
    && |s.orders| == 3 && |s.positions| == 1
    && s.orders[0].tradeId == Some(7) && s.orders[0].side == BUY && s.orders[0].symbol == PAIR
    && (forall i :: 1 <= i < 3 ==> s.orders[i].tradeId == Some(7) && s.orders[i].side == SELL && s.orders[i].symbol == PAIR)
    && s.orders[1].createdAt < s.orders[2].createdAt && s.orders[2].status == Failed
    && s.positions[0].entryOrder == 0 && s.positions[0].exitOrder == Some(1)
    && s.positions[0].symbol == PAIR && s.positions[0].status == Open
  }

  method BuyAndExitTwice(session: Session)
    requires session.View() == Store([], [], [])
    modifies session
    ensures Valid(session.View()) && TwoExits(session.View())
  {
    session.SubmitEntryOrder(0, 0, PAIR, 1.0, Some(Some(7)), 0);
    ghost var s := session.View();
    assert Carries(s, 0, 7, PAIR, BUY);
    var filled := session.HandleEntryFill(EntryPayload(7), 1);
    assert filled == Some(0);
    s := session.View();
    assert OpenOn(s, PAIR, 0) && EntryKnown(s, 0);
    var first := session.SubmitExitOrder(1, 1, PAIR, STILL_OPEN, true, 10);
    assert first == Some(1);
    s := session.View();
    assert OpenOn(s, PAIR, 0) && EntryKnown(s, 0);
    var second := session.SubmitExitOrder(2, 2, PAIR, STILL_OPEN, false, 20);
  }

  /** The position of trade 7 is closed, a failed exit of it is its newest order, and trade 9 is held. */
  predicate NextHeld(s: Store) {
    && |s.orders| == 4 && |s.positions| == 2
    && (forall i :: 0 <= i < 3 ==> s.orders[i].tradeId == Some(7) && s.orders[i].symbol == PAIR)
    && s.orders[1].side == SELL && s.orders[2].side == SELL && s.orders[1].createdAt < s.orders[2].createdAt
    && s.orders[2].status == Failed
    && s.orders[0].side == BUY && s.orders[3].side == BUY && s.orders[3].tradeId == Some(9)
    && s.positions[0].status == Closed && s.positions[0].exitOrder == Some(1)
    && s.positions[1].status == Open && s.positions[1].exitOrder == None && s.positions[1].entryOrder == 3
    && s.positions[1].symbol == PAIR
  }

  /** The reconciliation closes trade 7 by order 1, then trade 9 is bought on the same pair. */
  method ReconcileAndBuyAgain(session: Session)
    requires Valid(session.View()) && TwoExits(session.View())
    modifies session
    ensures Valid(session.View()) && NextHeld(session.View())
  {
    ghost var s := session.View();
    assert HasExit(s, 1);
    var closed := ReconcileClosedExit(session, 1, Remote(false), 30);
    assert closed == Some(0);
    session.SubmitEntryOrder(3, 3, PAIR, 1.0, Some(Some(9)), 40);
    s := session.View();
    assert Carries(s, 3, 9, PAIR, BUY);
    var filled := session.HandleEntryFill(EntryPayload(9), 41);
    assert filled == Some(3);
  }

  /** The late exit fill of trade 7 finds that failed order, which is linked to nothing, and so closes the
      position of trade 9 at the exit price of trade 7. */
  method LateFillClosesAnotherTrade(session: Session)
    requires session.View() == Store([], [], [])
    modifies session
    ensures Valid(session.View()) && |session.positions| == 2
    ensures Owns(session.View(), 1, 9)
    ensures session.positions[1].status == Closed && session.positions[1].exitPrice == EXIT_OF_7.closeRate
    ensures session.positions[1].exitOrder == Some(2) && |session.orders| > 2 && session.orders[2].tradeId == Some(7)
  {
    BuyAndExitTwice(session);
    ReconcileAndBuyAgain(session);
    ghost var s := session.View();
    assert Carries(s, 1, 7, PAIR, SELL) && Carries(s, 2, 7, PAIR, SELL);
    var order, closed := session.HandleExitFill(EXIT_OF_7, 50);
    assert order == Some(2);
    assert !Linked(s, 2);
    assert MayClose(s, 2, PAIR, 1);
    assert closed == Some(1);
  }
}
