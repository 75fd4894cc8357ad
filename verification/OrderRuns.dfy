/** Any interleaving of submissions, exchange webhooks and reconciliation passes over the audit tables. */
module OrderRuns {
  import opened Common
  import opened OrderFlow
  import opened OrderStore
  import opened ReconcileSpec
  import opened Reconciliation

  datatype Step =
    | EntryFill(payload: Payload, now: Time)
    | ExitFill(payload: Payload, now: Time)
    | Cancel(payload: Payload, side: Side)
    | SubmitEntry(traceId: TraceId, decisionId: nat, symbol: Symbol, amount: real, response: Option<Option<TradeId>>,
                  now: Time)
    | SubmitExit(traceId: TraceId, decisionId: nat, symbol: Symbol, remote: Oracle, accepted: bool, now: Time)
    | Reconcile(remote: Oracle, now: Time, staleAfter: Time)

  lemma SameEntriesUnique(s: Store, t: Store)
    requires UniqueEntries(s) && |t.positions| == |s.positions|
    requires forall i :: 0 <= i < |s.positions| ==> t.positions[i].entryOrder == s.positions[i].entryOrder
    ensures UniqueEntries(t)
  {
    forall i, j | 0 <= i < j < |t.positions| ensures t.positions[i].entryOrder != t.positions[j].entryOrder {
      assert s.positions[i].entryOrder != s.positions[j].entryOrder;
    }
  }

  /** Uniqueness, once lost, never returns. */
  lemma LostUniquenessStaysLost(s: Store, t: Store)
    requires Evolves(s, t) && UniqueEntries(t)
    ensures UniqueEntries(s)
  {
    forall i, j | 0 <= i < j < |s.positions| ensures s.positions[i].entryOrder != s.positions[j].entryOrder {
      assert SamePosition(s.positions[i], t.positions[i]) && SamePosition(s.positions[j], t.positions[j]);
    }
  }

  /** An entry fill opens one position for the order it matches, or finds none to match. */
  ghost predicate Fills(s: Store, t: Store, payload: Payload) {
    if payload.openRate.None? || payload.amount.None? || Finds(s, payload.tradeId, payload.pair, BUY, None)
    then t.positions == s.positions
    else
      && |t.positions| == |s.positions| + 1 && s.positions <= t.positions
      && Finds(s, payload.tradeId, payload.pair, BUY, Some(t.positions[|s.positions|].entryOrder))
  }

  /** The order an entry fill matched already had a position. */
  ghost predicate Refills(s: Store, t: Store, step: Step) {
    step.EntryFill? && |t.positions| > |s.positions| && HasEntry(s, t.positions[|s.positions|].entryOrder)
  }

  /** One step of a run. */
  ghost predicate Taken(s: Store, t: Store, step: Step) {
    && Valid(s) && Valid(t) && Evolves(s, t)
    && (step.EntryFill? ==> Fills(s, t, step.payload))
    && (UniqueEntries(t) <==> UniqueEntries(s) && !Refills(s, t, step))
  }

  method Take(session: Session, step: Step)
    requires Valid(session.View())
    modifies session
    ensures Taken(old(session.View()), session.View(), step)
  {
    hide Valid, Evolves, UniqueEntries, Finds;
    ghost var s := session.View();
    match step {
      case EntryFill(payload, now) =>
        var filled := session.HandleEntryFill(payload, now);
        if UniqueEntries(session.View()) {
          LostUniquenessStaysLost(s, session.View());
        }
        if filled.None? && UniqueEntries(s) {
          SameEntriesUnique(s, session.View());
        }
      case ExitFill(payload, now) =>
        var order, closed := session.HandleExitFill(payload, now);
      case Cancel(payload, side) =>
        var cancelled := session.MarkCancelled(payload, side);
        if UniqueEntries(s) {
          SameEntriesUnique(s, session.View());
        }
      case SubmitEntry(traceId, decisionId, symbol, amount, response, now) =>
        session.SubmitEntryOrder(traceId, decisionId, symbol, amount, response, now);
        if UniqueEntries(s) {
          SameEntriesUnique(s, session.View());
        }
      case SubmitExit(traceId, decisionId, symbol, remote, accepted, now) =>
        var submitted := session.SubmitExitOrder(traceId, decisionId, symbol, remote, accepted, now);
        if UniqueEntries(s) {
          SameEntriesUnique(s, session.View());
        }
      case Reconcile(remote, now, staleAfter) =>
        var reconciled, mid := ReconcileSubmittedOrders(session, remote, now, staleAfter);
    }
    if UniqueEntries(session.View()) {
      LostUniquenessStaysLost(s, session.View());
    }
  }

  /** A closed position, its exit and its entry, as every later state must show them. */
  ghost predicate StaysClosed(before: Store, after: Store, p: PositionId)
    requires p < |before.positions|
  {
    && p < |after.positions| && after.positions[p].status == Closed
    && after.positions[p].exitOrder.Some? && after.positions[p].exitOrder.value < |after.orders|
    && var o := after.orders[after.positions[p].exitOrder.value];
       && o.side == SELL && o.symbol == before.positions[p].symbol && o.avgPrice == after.positions[p].exitPrice
       && after.positions[p].entryOrder == before.positions[p].entryOrder
       && after.positions[p].entryPrice == before.positions[p].entryPrice
       && after.positions[p].amount == before.positions[p].amount
  }

  lemma ClosedForGood(before: Store, after: Store, p: PositionId)
    requires Evolves(before, after) && Valid(after)
    requires p < |before.positions| && before.positions[p].status == Closed
    ensures StaysClosed(before, after, p)
  {
    assert SamePosition(before.positions[p], after.positions[p]);
    assert ValidPosition(after, after.positions[p]);
  }

  /** The states of a run, one before each step and one after the last. */
  ghost predicate Traces(trace: seq<Store>, steps: seq<Step>) {
    && |trace| == |steps| + 1
    && forall i :: 0 <= i < |steps| ==> Taken(trace[i], trace[i + 1], steps[i])
  }

  ghost predicate NeverRefills(trace: seq<Store>, steps: seq<Step>)
    requires |trace| == |steps| + 1
  {
    forall i :: 0 <= i < |steps| ==> !Refills(trace[i], trace[i + 1], steps[i])
  }

  lemma {:induction false} UniqueOverRunIff(trace: seq<Store>, steps: seq<Step>)
    requires Traces(trace, steps)
    ensures UniqueEntries(trace[|steps|]) <==> UniqueEntries(trace[0]) && NeverRefills(trace, steps)
    ensures Evolves(trace[0], trace[|steps|])
  {
    hide Valid, Evolves, UniqueEntries, Refills;
    if steps == [] {
      EvolvesReflexive(trace[0]);
    } else {
      var n := |steps| - 1;
      var before, first := trace[..n + 1], steps[..n];
      assert forall i :: 0 <= i < n ==> Taken(before[i], before[i + 1], first[i]) by {
        forall i | 0 <= i < n ensures Taken(before[i], before[i + 1], first[i]) {
          assert Taken(trace[i], trace[i + 1], steps[i]);
        }
      }
      UniqueOverRunIff(before, first);
      assert Taken(trace[n], trace[n + 1], steps[n]);
      EvolvesTransitive(trace[0], trace[n], trace[n + 1]);
      assert NeverRefills(trace, steps) <==> NeverRefills(before, first) && !Refills(trace[n], trace[n + 1], steps[n]) by {
        assert forall i :: 0 <= i < n ==>
                             Refills(before[i], before[i + 1], first[i]) == Refills(trace[i], trace[i + 1], steps[i]);
      }
    }
  }

  /** Over any run the tables stay consistent and nothing is undone; a closed position stays closed by a
      SELL order of its own symbol at its exit price; and entries stay unique exactly when no entry fill
      matched an order that already had a position. */
  method Serve(session: Session, steps: seq<Step>) returns (ghost trace: seq<Store>)
    requires Valid(session.View())
    modifies session
    ensures Traces(trace, steps) && trace[0] == old(session.View()) && trace[|steps|] == session.View()
    ensures Valid(session.View()) && Evolves(old(session.View()), session.View())
    ensures forall p :: 0 <= p < |old(session.positions)| && old(session.positions)[p].status == Closed ==>
                          StaysClosed(old(session.View()), session.View(), p)
    ensures UniqueEntries(session.View()) <==> old(UniqueEntries(session.View())) && NeverRefills(trace, steps)
  {
    ghost var s := session.View();
    trace := [s];
    for i := 0 to |steps|
      invariant Valid(session.View())
      invariant Traces(trace, steps[..i]) && trace[0] == s && trace[i] == session.View()
    {
      Take(session, steps[i]);
      trace := Longer(trace, steps, i, session.View());
    }
    assert steps[..|steps|] == steps;
    UniqueOverRunIff(trace, steps);
    forall p | 0 <= p < |s.positions| && s.positions[p].status == Closed ensures StaysClosed(s, session.View(), p) {
      ClosedForGood(s, session.View(), p);
    }
  }

  lemma Longer(trace: seq<Store>, steps: seq<Step>, i: nat, t: Store) returns (more: seq<Store>)
    requires i < |steps| && Traces(trace, steps[..i]) && Taken(trace[i], t, steps[i])
    ensures more == trace + [t] && Traces(more, steps[..i + 1]) && more[i + 1] == t && more[0] == trace[0]
  {
    hide Taken;
    more := trace + [t];
    forall k | 0 <= k < i + 1 ensures Taken(more[k], more[k + 1], steps[..i + 1][k]) {
      if k < i {
        assert Taken(trace[k], trace[k + 1], steps[..i][k]);
      }
    }
  }
}
