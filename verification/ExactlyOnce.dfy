/** Safety of the store over every interleaving of its operations. */
module ExactlyOnce {
  import opened Basics
  import opened Tables
  import opened Reconciliation
  import opened Ledger
  import Metrics

  // ---------------------------------------------------------------- the invariant

  /** Unique index on the orders' idempotency keys. */
  ghost predicate UniqueKeys(orders: seq<Order>)
  {
    forall i, j :: 0 <= i < j < |orders| ==> orders[i].key != orders[j].key
  }

  /** An order carries an execution exactly when it is filled. */
  ghost predicate ExecutedWhenFilled(orders: seq<Order>)
  {
    forall i :: 0 <= i < |orders| ==> (orders[i].execution.Some? <==> orders[i].status == Filled)
  }

  ghost predicate FillsHaveOrders(db: Db)
  {
    forall i :: 0 <= i < |db.fills| ==> db.fills[i].orderId < |db.orders|
  }

  ghost predicate Sound(db: Db)
  {
    && (forall environment :: Agrees(db, environment))
    && (forall environment :: DrawdownsAgree(db.snapshots, environment))
    && UniqueRows(db.positions)
    && UniqueFills(db.fills)
    && FillsHaveOrders(db)
    && UniqueKeys(db.orders)
    && ExecutedWhenFilled(db.orders)
  }

  lemma EmptyIsSound()
    ensures Sound(EMPTY)
  {}

  // ---------------------------------------------------------------- each operation keeps it

  lemma NewFillKeepsKey(db: Db, f: Fill)
    requires UniqueFills(db.fills) && FillsHaveOrders(db)
    requires !HasFill(db.fills, f.orderId) && f.orderId < |db.orders|
    ensures UniqueFills(db.fills + [f]) && FillsHaveOrders(db.(fills := db.fills + [f]))
  {}

  lemma FillKeepsSound(db: Db, environment: string, orderId: nat, symbol: string, side: Side, quantity: real,
                       price: real)
    requires Sound(db) && orderId < |db.orders| && 0.0 <= quantity
    ensures Sound(FillApplied(db, environment, orderId, symbol, side, quantity, price,
                              CurrentCash(db.snapshots, environment)))
  {
    hide Agrees, DrawdownsAgree, UniqueRows, UniqueFills, HasFill, Upsert, PositionsValue, CurrentCash, NewSnapshot;
    hide UniqueKeys, ExecutedWhenFilled;
    if !HasFill(db.fills, orderId) {
      NewFillKeepsKey(db, FillRow(environment, orderId, symbol, side, quantity, price));
      UpsertKeepsKey(db.positions, environment, Upper(symbol), Signed(side, quantity), price);
      forall env
        ensures Agrees(FillApplied(db, environment, orderId, symbol, side, quantity, price,
                                   CurrentCash(db.snapshots, environment)), env)
        ensures DrawdownsAgree(FillApplied(db, environment, orderId, symbol, side, quantity, price,
                                           CurrentCash(db.snapshots, environment)).snapshots, env)
      {
        NewFillKeepsBooks(db, environment, orderId, symbol, side, quantity, price, env);
        NewFillKeepsDrawdowns(db, environment, orderId, symbol, side, quantity, price, env);
      }
    }
  }

  lemma NewFillKeepsBooks(db: Db, environment: string, orderId: nat, symbol: string, side: Side, quantity: real,
                          price: real, env: string)
    requires !HasFill(db.fills, orderId) && 0.0 <= quantity && UniqueRows(db.positions)
    requires Agrees(db, environment) && Agrees(db, env)
    ensures Agrees(FillApplied(db, environment, orderId, symbol, side, quantity, price,
                               CurrentCash(db.snapshots, environment)), env)
  {
    hide *;
    var cash := CurrentCash(db.snapshots, environment);
    if env == environment {
      FillAgreesIff(db, environment, orderId, symbol, side, quantity, price, cash);
    } else {
      FillKeepsOthers(db, environment, orderId, symbol, side, quantity, price, cash, env);
    }
  }

  lemma NewFillKeepsDrawdowns(db: Db, environment: string, orderId: nat, symbol: string, side: Side, quantity: real,
                              price: real, env: string)
    requires !HasFill(db.fills, orderId) && DrawdownsAgree(db.snapshots, env)
    ensures DrawdownsAgree(FillApplied(db, environment, orderId, symbol, side, quantity, price,
                                       CurrentCash(db.snapshots, environment)).snapshots, env)
  {
    hide DrawdownsAgree, Upsert, PositionsValue, CurrentCash, NewSnapshot, Signed, HasFill;
    var fill := FillRow(environment, orderId, symbol, side, quantity, price);
    var cash := CurrentCash(db.snapshots, environment) - Signed(side, fill.notional);
    var positions := Upsert(db.positions, environment, Upper(symbol), Signed(side, quantity), price);
    NewSnapshotKeepsDrawdowns(db.snapshots, environment, cash + PositionsValue(positions, environment), cash, env);
  }

  lemma {:induction false} RevaluedAllKeepsKey(rows: seq<Position>, environment: string, valuations: seq<Valuation>)
    requires UniqueRows(rows)
    ensures UniqueRows(RevaluedAll(rows, environment, valuations))
  {
    if valuations != [] {
      RevaluedAllKeepsKey(rows, environment, valuations[..|valuations| - 1]);
    }
  }

  lemma MarkToMarketKeepsSound(db: Db, environment: string, prices: map<string, real>)
    requires Sound(db)
    ensures Sound(MarkedToMarket(db, environment, prices))
  {
    var after := MarkedToMarket(db, environment, prices);
    var cash, valuations := CurrentCash(db.snapshots, environment), Priced(db.positions, environment, prices);
    hide Agrees, DrawdownsAgree, UniqueRows, NewSnapshot, CurrentCash, RevaluedAll, SumValuations, Priced, UniqueKeys,
      ExecutedWhenFilled;
    RevaluedAllKeepsKey(db.positions, environment, valuations);
    RevaluedAllKeepsKey(db.positions, environment, []);
    forall env
      ensures Agrees(after, env)
      ensures DrawdownsAgree(after.snapshots, env)
    {
      MarkToMarketKeepsBooks(db, environment, prices, env);
      NewSnapshotKeepsDrawdowns(db.snapshots, environment, cash + SumValuations(valuations), cash, env);
      NewSnapshotKeepsDrawdowns(db.snapshots, environment, cash + SumValuations([]), cash, env);
    }
  }

  /** Only the orders table changed. */
  lemma OrdersKeepSound(db: Db, orders: seq<Order>)
    requires Sound(db) && |db.orders| <= |orders| && UniqueKeys(orders) && ExecutedWhenFilled(orders)
    ensures Sound(db.(orders := orders))
  {
    hide DrawdownsAgree, UniqueRows, UniqueKeys, ExecutedWhenFilled;
    var after := db.(orders := orders);
    forall environment
      ensures Agrees(after, environment)
    {
      assert Agrees(db, environment);
    }
  }

  lemma InsertKeepsSound(db: Db, row: Order)
    requires Sound(db) && row.execution.None? && row.status != Filled
    ensures Sound(db.(orders := Inserted(db.orders, row)))
  {
    hide Agrees, DrawdownsAgree, UniqueRows, UniqueFills, FillsHaveOrders;
    OrdersKeepSound(db, Inserted(db.orders, row));
  }

  /** The quantity a reply makes the ledger book is not negative. */
  predicate Honest(order: Order, reply: Reply)
  {
    SaysFilled(reply) ==> 0.0 <= ExecutionOf(order, reply).quantity
  }

  lemma ReconciledKeepsSound(db: Db, id: nat, reply: Reply)
    requires Sound(db) && id < |db.orders| && Honest(db.orders[id], reply)
    ensures Sound(Reconciled(db, id, db.orders[id], reply))
  {
    hide Agrees, DrawdownsAgree, UniqueRows, UniqueFills, FillApplied, CurrentCash, SaysOver;
    var order := db.orders[id];
    OrdersKeepSound(db, MarkedCancelled(db.orders, id));
    if SaysFilled(reply) {
      var execution := ExecutionOf(order, reply);
      OrdersKeepSound(db, MarkedFilled(db.orders, id, execution));
      FillKeepsSound(db.(orders := MarkedFilled(db.orders, id, execution)), order.environment, id, order.symbol,
                     order.side, execution.quantity, execution.price);
    }
  }

  // ---------------------------------------------------------------- every interleaving

  /** What can happen to the store: the broker answers about one order, in any
      pass and however often; an environment is marked to market; an order is placed. */
  datatype Event =
    | Answered(id: nat, reply: Reply)
    | Valued(environment: string, prices: map<string, real>)
    | Placed(row: Order)

  function Happened(db: Db, e: Event): Db
  {
    match e
    case Answered(id, reply) => if id < |db.orders| then Reconciled(db, id, db.orders[id], reply) else db
    case Valued(environment, prices) => MarkedToMarket(db, environment, prices)
    case Placed(row) => db.(orders := Inserted(db.orders, row))
  }

  function Run(db: Db, events: seq<Event>): Db
  {
    if events == [] then db else Happened(Run(db, events[..|events| - 1]), events[|events| - 1])
  }

  /** Placed orders are not executed yet, and answers about them are honest. */
  ghost predicate Plausible(db: Db, events: seq<Event>)
  {
    events != [] ==>
      var before, e := Run(db, events[..|events| - 1]), events[|events| - 1];
      && Plausible(db, events[..|events| - 1])
      && match e
         case Answered(id, reply) => id < |before.orders| ==> Honest(before.orders[id], reply)
         case Valued(_, _) => true
         case Placed(row) => row.execution.None? && row.status != Filled
  }

  lemma {:induction false} RunKeepsSound(db: Db, events: seq<Event>)
    requires Sound(db) && Plausible(db, events)
    ensures Sound(Run(db, events))
  {
    hide Sound, Reconciled, MarkedToMarket, Inserted, Honest;
    if events != [] {
      var before, e := Run(db, events[..|events| - 1]), events[|events| - 1];
      RunKeepsSound(db, events[..|events| - 1]);
      match e {
        case Answered(id, reply) =>
          if id < |before.orders| {
            ReconciledKeepsSound(before, id, reply);
          }
        case Valued(environment, prices) => MarkToMarketKeepsSound(before, environment, prices);
        case Placed(row) => InsertKeepsSound(before, row);
      }
    }
  }

  /** Whatever happened, in whatever order: each position is the signed sum of
      its distinct fills; cash is the starting cash less what the fills paid out;
      cash and positions at cost are worth the starting cash plus the profit of
      every completed round; and the worst stored drawdown is that of the
      whole history of net asset values. */
  lemma LedgerOfEveryRun(events: seq<Event>, environment: string, symbol: string)
    requires Plausible(EMPTY, events)
    ensures var db := Run(EMPTY, events);
      && UniqueFills(db.fills)
      && Held(db.positions, environment, symbol) == NetQuantity(db.fills, environment, symbol)
      && CurrentCash(db.snapshots, environment) == STARTING_CASH - Outlay(In(db.fills, environment))
      && CurrentCash(db.snapshots, environment) + PositionsValue(db.positions, environment)
         == STARTING_CASH + Realised(db.fills, environment)
      && WorstDrawdown(db.snapshots, environment) == Metrics.MaxDrawdown(Navs(db.snapshots, environment))
  {
    hide Run, Plausible, Held, CostOf, NetQuantity, OpenRound, In, CurrentCash, Outlay, PositionsValue, Realised;
    hide WorstDrawdown, Navs, Metrics.MaxDrawdown, UniqueRows, UniqueFills, UniqueKeys, FillsHaveOrders,
      ExecutedWhenFilled;
    assert Sound(Run(EMPTY, events)) by {
      EmptyIsSound();
      RunKeepsSound(EMPTY, events);
    }
    assert Agrees(Run(EMPTY, events), environment);
    assert DrawdownsAgree(Run(EMPTY, events).snapshots, environment);
  }

  /** Orders only move forward and fills are only added. */
  lemma HappenedMovesForward(db: Db, e: Event)
    ensures Evolves(db.orders, Happened(db, e).orders)
    ensures db.fills <= Happened(db, e).fills
  {
    match e {
      case Answered(id, reply) =>
        if id < |db.orders| {
          ReconciledEvolves(db, id, db.orders[id], reply);
        }
        hide Evolves, Upsert, PositionsValue, CurrentCash, NewSnapshot, SaysFilled, SaysOver, HasFill;
      case Valued(_, _) =>
      case Placed(_) =>
    }
  }

  lemma NothingEvolves(orders: seq<Order>)
    ensures Evolves(orders, orders)
  {}

  /** Between any two moments of any run: a status changes at most once, from
      submitted to filled or cancelled; an execution is written at most once;
      nothing else of an order changes; no order and no fill disappears. */
  lemma {:induction false} HistoryMovesForward(db: Db, events: seq<Event>, more: seq<Event>)
    ensures Evolves(Run(db, events).orders, Run(db, events + more).orders)
    ensures Run(db, events).fills <= Run(db, events + more).fills
    decreases |more|
  {
    hide Happened, Evolves;
    if more == [] {
      assert events + more == events;
      NothingEvolves(Run(db, events).orders);
    } else {
      var front, e := more[..|more| - 1], more[|more| - 1];
      HistoryMovesForward(db, events, front);
      assert (events + more)[..|events + more| - 1] == events + front;
      HappenedMovesForward(Run(db, events + front), e);
      EvolvesTransitive(Run(db, events).orders, Run(db, events + front).orders, Run(db, events + more).orders);
    }
  }

  // ---------------------------------------------------------------- passes are interleavings

  function PassEvents(ids: seq<nat>, n: nat, broker: nat -> Reply): seq<Event>
    requires n <= |ids|
  {
    if n == 0 then [] else PassEvents(ids, n - 1, broker) + [Answered(ids[n - 1], broker(ids[n - 1]))]
  }

  /** A pass is one run of answers, so passes that interleave are covered too. */
  lemma {:induction false} PassIsRun(db: Db, ids: seq<nat>, n: nat, broker: nat -> Reply)
    requires n <= |ids|
    requires Within(ids, db.orders)
    ensures PassAfter(db, ids, n, broker) == Run(db, PassEvents(ids, n, broker))
  {
    hide Reconciled;
    if n > 0 {
      PassIsRun(db, ids, n - 1, broker);
      assert PassEvents(ids, n, broker)[..|PassEvents(ids, n, broker)| - 1] == PassEvents(ids, n - 1, broker);
    }
  }

  // ---------------------------------------------------------------- filled orders without a fill

  predicate Unfilled(db: Db, id: nat)
  {
    id < |db.orders| && db.orders[id].status == Filled && !HasFill(db.fills, id)
  }

  /** The newest answer that filled this order, or applied its fill, is one that
      marked it and then raised. */
  predicate FillLost(db: Db, events: seq<Event>, id: nat)
  {
    events != [] &&
    var front, e := events[..|events| - 1], events[|events| - 1];
    var before := Run(db, front);
    if e.Answered? && e.id == id < |before.orders| && SaysFilled(e.reply) && e.reply.fault != MarkFails then
      e.reply.fault == FillFails
      && (FillLost(db, front, id) || (before.orders[id].status == Submitted && !HasFill(before.fills, id)))
    else FillLost(db, front, id)
  }

  /** No order is placed as already filled. */
  ghost predicate PlacedUnfilled(events: seq<Event>)
  {
    forall i :: 0 <= i < |events| && events[i].Placed? ==> events[i].row.status != Filled
  }

  lemma AnsweredUnfilledIff(db: Db, k: nat, reply: Reply, id: nat)
    requires k < |db.orders|
    ensures Unfilled(Reconciled(db, k, db.orders[k], reply), id)
       <==> if id == k && SaysFilled(reply) && reply.fault != MarkFails
            then reply.fault == FillFails && (Unfilled(db, id)
                                              || (db.orders[id].status == Submitted && !HasFill(db.fills, id)))
            else Unfilled(db, id)
  {
    ReconciledFills(db, k, db.orders[k], reply);
    ReconciledEvolves(db, k, db.orders[k], reply);
    if id == k {
      hide HasFill, Upsert, PositionsValue, CurrentCash, NewSnapshot, Evolves, FillRow;
    } else {
      hide Reconciled, HasFill, Evolves, SaysFilled, SaysOver;
    }
  }

  lemma HappenedUnfilledIff(db: Db, e: Event, id: nat)
    requires !e.Answered? && (e.Placed? ==> e.row.status != Filled)
    ensures Unfilled(Happened(db, e), id) <==> Unfilled(db, id)
  {
    hide HasFill, NewSnapshot, CurrentCash, RevaluedAll, Priced, FindKey;
  }

  lemma {:induction false} UnfilledIff(db: Db, events: seq<Event>, id: nat)
    requires PlacedUnfilled(events) && !Unfilled(db, id)
    ensures Unfilled(Run(db, events), id) <==> FillLost(db, events, id)
  {
    hide Reconciled, MarkedToMarket, Inserted, HasFill, SaysFilled;
    if events != [] {
      var front, e := events[..|events| - 1], events[|events| - 1];
      UnfilledIff(db, front, id);
      var before := Run(db, front);
      if !e.Answered? {
        HappenedUnfilledIff(before, e, id);
      } else if e.id < |before.orders| {
        AnsweredUnfilledIff(before, e.id, e.reply, id);
      }
    }
  }

  lemma NoneUnfilled(db: Db)
    ensures FilledHaveFills(db) <==> forall id: nat :: !Unfilled(db, id)
  {
    hide HasFill;
    if !FilledHaveFills(db) {
      var id :| 0 <= id < |db.orders| && db.orders[id].status == Filled && !HasFill(db.fills, id);
      assert Unfilled(db, id);
    }
    if forall id: nat :: !Unfilled(db, id) {
      forall id | 0 <= id < |db.orders| && db.orders[id].status == Filled
        ensures HasFill(db.fills, id)
      {
        assert !Unfilled(db, id);
      }
    }
  }

  /** Over every run from the empty store: every filled order has its fill row
      exactly when no order's fill was lost and not applied again since. */
  lemma FilledHaveFillsIff(events: seq<Event>)
    requires PlacedUnfilled(events)
    ensures FilledHaveFills(Run(EMPTY, events)) <==> forall id: nat :: !FillLost(EMPTY, events, id)
  {
    hide Run, FillLost, PlacedUnfilled, FilledHaveFills, Unfilled;
    var db := Run(EMPTY, events);
    NoneUnfilled(db);
    if FilledHaveFills(db) {
      forall id: nat
        ensures !FillLost(EMPTY, events, id)
      {
        NothingUnfilledAtFirst(id);
        UnfilledIff(EMPTY, events, id);
      }
    } else {
      var id: nat :| Unfilled(db, id);
      NothingUnfilledAtFirst(id);
      UnfilledIff(EMPTY, events, id);
      assert FillLost(EMPTY, events, id);
    }
  }

  lemma NothingUnfilledAtFirst(id: nat)
    ensures !Unfilled(EMPTY, id)
  {}
}
