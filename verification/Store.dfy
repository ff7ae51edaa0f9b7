/** The paper-trading store: the repositories' methods over the tables they update. */
module Store {
  import opened Basics
  import opened Tables
  import opened Reconciliation
  import Metrics

  datatype ReconciliationResult = ReconciliationResult(
    checked: nat,
    filled: nat,
    pending: int,
    cancelled: nat,
    errors: seq<nat>)

  class PaperStore {
    var orders: seq<Order>
    var fills: seq<Fill>
    var positions: seq<Position>
    var snapshots: seq<Snapshot>

    function State(): Db
      reads this
    {
      Db(orders, fills, positions, snapshots)
    }

    constructor ()
      ensures State() == EMPTY
    {
      orders, fills, positions, snapshots := [], [], [], [];
    }

    // -------------------------------------------------------------- orders

    /** `insert_paper_order` and `insert_close_order`: the id of the row that
        now carries the key, new or not. */
    method InsertOrder(row: Order) returns (id: nat)
      modifies this`orders
      ensures orders == Inserted(old(orders), row)
      ensures id == FindKey(old(orders), row.key) && id < |orders| && orders[id].key == row.key
    {
      id := FindKey(orders, row.key);
      if id == |orders| {
        orders := orders + [row.(symbol := Upper(row.symbol))];
      }
    }

    method MarkFilled(id: nat, price: real, quantity: real, at: string)
      modifies this`orders
      ensures orders == MarkedFilled(old(orders), id, Execution(price, quantity, at))
    {
      if id < |orders| && orders[id].status == Submitted {
        orders := orders[id := orders[id].(status := Filled, execution := Some(Execution(price, quantity, at)))];
      }
    }

    method MarkCancelled(id: nat)
      modifies this`orders
      ensures orders == MarkedCancelled(old(orders), id)
    {
      if id < |orders| && orders[id].status == Submitted {
        orders := orders[id := orders[id].(status := Cancelled)];
      }
    }

    // -------------------------------------------------------------- ledger

    method ApplyPaperFill(environment: string, orderId: nat, symbol: string, side: Side, quantity: real, price: real,
                          startingCash: real)
      modifies this`fills, this`positions, this`snapshots
      ensures State() == FillApplied(old(State()), environment, orderId, symbol, side, quantity, price, startingCash)
    {
      if HasFill(fills, orderId) {
        return;
      }
      var signedQuantity := Signed(side, quantity);
      var amount := Abs(signedQuantity);
      var notional := Value(amount, price);
      fills := fills + [Fill(environment, orderId, Upper(symbol), side, amount, price, notional)];
      positions := Upsert(positions, environment, Upper(symbol), signedQuantity, price);
      var positionsValue := PositionsValue(positions, environment);
      var cash := startingCash - Signed(side, notional);
      var nav := cash + positionsValue;
      var drawdown := Metrics.StoredDrawdown(Navs(snapshots, environment), nav);
      snapshots := snapshots + [Snapshot(environment, nav, cash, drawdown)];
    }

    method RecordMarkToMarket(environment: string, cash: real, valuations: seq<Valuation>)
      modifies this`positions, this`snapshots
      ensures State() == MarkToMarketRecorded(old(State()), environment, cash, valuations)
    {
      var positionsValue := 0.0;
      for i := 0 to |valuations|
        invariant positions == RevaluedAll(old(positions), environment, valuations[..i])
        invariant positionsValue == SumValuations(valuations[..i])
        invariant orders == old(orders) && fills == old(fills) && snapshots == old(snapshots)
      {
        var v := valuations[i];
        assert valuations[..i + 1][..i] == valuations[..i];
        positionsValue := positionsValue + v.marketValue;
        positions := Revalued(positions, environment, v);
      }
      assert valuations[..|valuations|] == valuations;
      var nav := cash + positionsValue;
      var drawdown := Metrics.StoredDrawdown(Navs(snapshots, environment), nav);
      snapshots := snapshots + [Snapshot(environment, nav, cash, drawdown)];
    }

    /** `PortfolioMarkToMarketService.run`; a symbol without a quote is an error
        of that position only. */
    method MarkToMarket(environment: string, prices: map<string, real>) returns (result: MarkToMarketResult)
      modifies this`positions, this`snapshots
      ensures State() == MarkedToMarket(old(State()), environment, prices)
      ensures result == ResultOf(old(State()), environment, prices)
    {
      hide Priced, ValuedPositions, Unquoted, NewSnapshot, RevaluedAll, CurrentCash;
      var cash := CurrentCash(snapshots, environment);
      if !HasPositions(positions, environment) {
        NothingHeld(positions, environment, prices);
        RecordMarkToMarket(environment, cash, []);
        return MarkToMarketResult(false, cash, cash, 0.0, [], []);
      }
      var valuations, valued, errors := ValuePositions(environment, prices);
      var positionsValue := SumValuations(valuations);
      if valuations != [] {
        RecordMarkToMarket(environment, cash, valuations);
      }
      return MarkToMarketResult(errors != [], cash, cash + positionsValue, positionsValue, valued, errors);
    }

    /** The loop over the positions. */
    method ValuePositions(environment: string, prices: map<string, real>)
      returns (valuations: seq<Valuation>, valued: seq<ValuedPosition>, errors: seq<string>)
      ensures valuations == Priced(positions, environment, prices)
      ensures valued == ValuedPositions(positions, environment, prices)
      ensures errors == Unquoted(positions, environment, prices)
    {
      hide ValuedOf, Value;
      valuations, valued, errors := [], [], [];
      for i := 0 to |positions|
        invariant valuations == Priced(positions[..i], environment, prices)
        invariant valued == ValuedPositions(positions[..i], environment, prices)
        invariant errors == Unquoted(positions[..i], environment, prices)
      {
        var p := positions[i];
        assert positions[..i + 1][..i] == positions[..i];
        if p.environment == environment {
          valued := valued + [ValuedOf(p, prices)];
          if p.symbol in prices {
            valuations := valuations + [Valuation(p.symbol, Value(p.quantity, prices[p.symbol]))];
          } else {
            errors := errors + [p.symbol];
          }
        }
      }
      assert positions[..|positions|] == positions;
    }

    // -------------------------------------------------------------- reconciliation

    /** One order of a pass, with the row as it was read when the pass began. */
    method ReconcileOrder(id: nat, order: Order, reply: Reply) returns (verdict: Verdict)
      modifies this
      ensures State() == Reconciled(old(State()), id, order, reply)
      ensures verdict == VerdictOf(reply)
    {
      if reply.Unreachable? {
        return Errored;
      }
      if SaysFilled(reply) {
        if reply.fault == MarkFails {
          return Errored;
        }
        var execution := ExecutionOf(order, reply);
        MarkFilled(id, execution.price, execution.quantity, execution.at);
        if reply.fault == FillFails {
          return Errored;
        }
        var cash := CurrentCash(snapshots, order.environment);
        ApplyPaperFill(order.environment, id, order.symbol, order.side, execution.quantity, execution.price, cash);
        return WasFilled;
      }
      if SaysOver(reply) {
        if reply.fault == MarkFails {
          return Errored;
        }
        MarkCancelled(id);
        return WasCancelled;
      }
      return LeftPending;
    }

    /** `reconcile_pending`: the rows are read once, so each later order is
        handled with a copy that may be out of date in its status. */
    method ReconcilePending(broker: nat -> Reply) returns (result: ReconciliationResult)
      modifies this
      ensures State() == Pass(old(State()), broker)
      ensures Reports(result, PendingIds(old(orders)), broker)
    {
      hide Reconciled, VerdictOf, PendingIds, Count;
      var ids := PendingIds(orders);
      var rows := RowsOf(orders, ids);
      ghost var before := State();
      var filled, cancelled := 0, 0;
      var errors: seq<nat> := [];
      PassBegins(before, ids, broker);
      hide PassAfter, Counted;
      for i := 0 to |ids|
        invariant State() == PassAfter(before, ids, i, broker)
        invariant Counted(ids, i, broker, filled, cancelled, |errors|)
      {
        StaleRowIsEnough(before, ids, i, broker, rows[i]);
        CountedNext(ids, i, broker, filled, cancelled, |errors|);
        var verdict := ReconcileOrder(ids[i], rows[i], broker(ids[i]));
        match verdict {
          case WasFilled => filled := filled + 1;
          case WasCancelled => cancelled := cancelled + 1;
          case Errored => errors := errors + [ids[i]];
          case LeftPending =>
        }
      }
      result := ReconciliationResult(|ids|, filled, |ids| - filled - cancelled - |errors|, cancelled, errors);
      CountedReports(result, ids, broker);
    }
  }

  lemma PassBegins(db: Db, ids: seq<nat>, broker: nat -> Reply)
    requires Within(ids, db.orders)
    ensures PassAfter(db, ids, 0, broker) == db && Counted(ids, 0, broker, 0, 0, 0)
  {}

  lemma CountedReports(result: ReconciliationResult, ids: seq<nat>, broker: nat -> Reply)
    requires Counted(ids, |ids|, broker, result.filled, result.cancelled, |result.errors|)
    requires result.checked == |ids| && result.pending == |ids| - result.filled - result.cancelled - |result.errors|
    ensures Reports(result, ids, broker)
  {
    CountsPartition(ids, |ids|, broker);
  }

  /** Each order of the pass is counted under its verdict. */
  predicate Reports(result: ReconciliationResult, ids: seq<nat>, broker: nat -> Reply)
  {
    && result.checked == |ids|
    && result.filled == Count(ids, |ids|, broker, WasFilled)
    && result.cancelled == Count(ids, |ids|, broker, WasCancelled)
    && |result.errors| == Count(ids, |ids|, broker, Errored)
    && result.pending == Count(ids, |ids|, broker, LeftPending)
  }

  function RowsOf(orders: seq<Order>, ids: seq<nat>): (rows: seq<Order>)
    requires Within(ids, orders)
    ensures |rows| == |ids|
    ensures forall i :: 0 <= i < |ids| ==> rows[i] == orders[ids[i]]
  {
    seq(|ids|, i requires 0 <= i < |ids| => orders[ids[i]])
  }

  /** Handling an order by its stale row does what its current row would: the
      columns that are used never change. */
  lemma StaleRowIsEnough(db: Db, ids: seq<nat>, i: nat, broker: nat -> Reply, row: Order)
    requires i < |ids|
    requires Within(ids, db.orders)
    requires row == db.orders[ids[i]]
    ensures Reconciled(PassAfter(db, ids, i, broker), ids[i], row, broker(ids[i])) == PassAfter(db, ids, i + 1, broker)
  {
    PassEvolves(db, ids, i, broker);
    var now := PassAfter(db, ids, i, broker);
    assert RowEvolves(row, now.orders[ids[i]]);
  }
}
