/** Turning a signal into an order, as rac/orders/executor.py does. */
module Executor {
  import opened Basics
  import opened Tables
  import opened Ledger
  import opened Store
  import Reconciliation
  import ExactlyOnce
  import Metrics
  import S = Strategies

  /** The columns of a stored signal that the executor reads. */
  datatype SignalRow = SignalRow(
    id: nat,
    strategyId: string,
    symbol: string,
    direction: S.Direction,
    close: real,
    stopLossPct: real,
    takeProfitPct: real,
    maxPositionPct: real)

  /** `approved` is the risk manager's verdict on the order built from the request. */
  datatype Request = Request(live: bool, equity: real, cash: real, orderType: string, approved: bool)

  datatype Outcome = Refused(reason: string) | Raised | Accepted(orderId: nat, status: Status)

  const PAPER := "paper"

  /** `_build_order_intent` and `_idempotency_key`. `None` where the order model
      raises: every amount has to be positive. */
  function IntentOf(signal: SignalRow, equity: real, orderType: string, status: Status,
                    brokerOrderId: Option<string>): Option<Order>
  {
    if signal.close <= 0.0 then None
    else
      var price := signal.close;
      var quantity := equity * (signal.maxPositionPct / 100.0) / price;
      var side := if signal.direction == S.BUY then Buy else Sell;
      var stop := if side == Buy then price * (1.0 - signal.stopLossPct / 100.0)
                  else price * (1.0 + signal.stopLossPct / 100.0);
      var target := if side == Buy then price * (1.0 + signal.takeProfitPct / 100.0)
                    else price * (1.0 - signal.takeProfitPct / 100.0);
      if quantity <= 0.0 || stop <= 0.0 || target <= 0.0 then None
      else Some(Order(PAPER, status, signal.symbol, side, quantity, price, Some(stop), Some(target),
                      FromSignal(signal.strategyId, signal.id),
                      SignalKey(signal.id, side, orderType, quantity, price), brokerOrderId, None))
  }

  /** What an order promises: it commits the signal's share of equity at the
      signal's close, and its stop and target lie the signal's percentages away,
      on the losing and the winning side. */
  lemma IntentAmounts(signal: SignalRow, equity: real, orderType: string, status: Status, brokerOrderId: Option<string>)
    requires IntentOf(signal, equity, orderType, status, brokerOrderId).Some?
    requires 0.0 < signal.stopLossPct && 0.0 < signal.takeProfitPct
    ensures var o := IntentOf(signal, equity, orderType, status, brokerOrderId).value;
      && o.quantity * o.estimatedPrice == equity * (signal.maxPositionPct / 100.0)
      && (o.side == Buy <==> signal.direction == S.BUY)
      && if o.side == Buy then o.stopLoss.value < o.estimatedPrice < o.takeProfit.value
         else o.takeProfit.value < o.estimatedPrice < o.stopLoss.value
    ensures var o := IntentOf(signal, equity, orderType, status, brokerOrderId).value;
      && o.estimatedPrice == signal.close && 0.0 < o.quantity
      && 100.0 * Abs(o.estimatedPrice - o.stopLoss.value) == signal.stopLossPct * signal.close
      && 100.0 * Abs(o.estimatedPrice - o.takeProfit.value) == signal.takeProfitPct * signal.close
      && o.symbol == signal.symbol && o.origin == FromSignal(signal.strategyId, signal.id)
      && o.status == status && o.brokerOrderId == brokerOrderId && o.execution.None? && o.environment == PAPER
  {
    var o := IntentOf(signal, equity, orderType, status, brokerOrderId).value;
    DivideTimes(equity * (signal.maxPositionPct / 100.0), signal.close);
    PositiveProduct(signal.close, signal.stopLossPct / 100.0);
    PositiveProduct(signal.close, signal.takeProfitPct / 100.0);
  }

  /** `execute_signal` without a broker: an order row and an immediate fill that
      starts from the cash named in the request. */
  function ExecutedLocally(db: Db, signal: Option<SignalRow>, request: Request): Db
  {
    if request.live || signal.None? || signal.value.direction == S.HOLD then db
    else
      match IntentOf(signal.value, request.equity, request.orderType, PaperAccepted, None)
      case None => db
      case Some(order) =>
        if !request.approved then db
        else
          FillApplied(db.(orders := Inserted(db.orders, order)), PAPER, FindKey(db.orders, order.key),
                      order.symbol, order.side, order.quantity, order.estimatedPrice, request.cash)
  }

  method ExecuteLocally(store: PaperStore, signal: Option<SignalRow>, request: Request) returns (outcome: Outcome)
    modifies store
    ensures store.State() == ExecutedLocally(old(store.State()), signal, request)
    ensures outcome.Refused? || outcome.Raised? ==> store.State() == old(store.State())
  {
    if request.live {
      return Refused("live_blocked");
    }
    if signal.None? {
      return Refused("signal_not_found");
    }
    if signal.value.direction == S.HOLD {
      return Refused("hold_signal");
    }
    var intent := IntentOf(signal.value, request.equity, request.orderType, PaperAccepted, None);
    if intent.None? {
      return Raised;
    }
    if !request.approved {
      return Refused("risk_rejected");
    }
    var order := intent.value;
    var id := store.InsertOrder(order);
    store.ApplyPaperFill(PAPER, id, order.symbol, order.side, order.quantity, order.estimatedPrice, request.cash);
    return Accepted(id, PaperAccepted);
  }

  lemma {:induction false} FindKeyAppended(orders: seq<Order>, row: Order)
    requires FindKey(orders, row.key) == |orders|
    ensures FindKey(orders + [row], row.key) == |orders|
  {
    if orders != [] {
      assert (orders + [row])[1..] == orders[1..] + [row];
      FindKeyAppended(orders[1..], row);
    }
  }

  /** Inserting the same key again finds the row it made the first time. */
  lemma InsertedOnce(orders: seq<Order>, row: Order)
    ensures FindKey(Inserted(orders, row), row.key) == FindKey(orders, row.key) < |Inserted(orders, row)|
    ensures Inserted(Inserted(orders, row), row) == Inserted(orders, row)
  {
    if FindKey(orders, row.key) == |orders| {
      FindKeyAppended(orders, row.(symbol := Upper(row.symbol)));
    }
  }

  /** The order a request leads to; `None` where it is refused or building it raises. */
  function PlacedBy(signal: Option<SignalRow>, request: Request): Option<Order>
  {
    if request.live || signal.None? || signal.value.direction == S.HOLD || !request.approved then None
    else IntentOf(signal.value, request.equity, request.orderType, PaperAccepted, None)
  }

  /** The order with this key exists and has its fill. */
  predicate Done(db: Db, key: Key)
  {
    FindKey(db.orders, key) < |db.orders| && HasFill(db.fills, FindKey(db.orders, key))
  }

  /** In any state a request changes nothing exactly when it is refused, its
      order cannot be built, or that order is there with its fill. */
  lemma ExecutionChangesNothingIff(db: Db, signal: Option<SignalRow>, request: Request)
    ensures ExecutedLocally(db, signal, request) == db
       <==> PlacedBy(signal, request).None? || Done(db, PlacedBy(signal, request).value.key)
  {
    hide IntentOf, Upsert, PositionsValue, NewSnapshot, FillRow, HasFill;
    if PlacedBy(signal, request).Some? {
      var order := PlacedBy(signal, request).value;
      var id := FindKey(db.orders, order.key);
      var after := ExecutedLocally(db, signal, request);
      if id == |db.orders| {
        assert |after.orders| == |db.orders| + 1;
      } else if !HasFill(db.fills, id) {
        assert |after.fills| == |db.fills| + 1;
      }
    }
  }

  /** Executing a signal a second time, whatever the second request names,
      changes nothing exactly when that request is refused, or leads to an
      order the ledger already has with its fill. */
  lemma RepeatedExecutionChangesNothing(db: Db, signal: Option<SignalRow>, first: Request, second: Request)
    ensures var once := ExecutedLocally(db, signal, first);
      var a, b := PlacedBy(signal, first), PlacedBy(signal, second);
      ExecutedLocally(once, signal, second) == once
      <==> b.None? || (a.Some? && a.value.key == b.value.key) || Done(db, b.value.key)
  {
    var once := ExecutedLocally(db, signal, first);
    var a, b := PlacedBy(signal, first), PlacedBy(signal, second);
    hide PlacedBy, ExecutedLocally, Done;
    ExecutionChangesNothingIff(once, signal, second);
    if b.Some? {
      DoneAfter(db, signal, first, b.value.key);
    }
  }

  /** A request completes its own key and no other. */
  lemma DoneAfter(db: Db, signal: Option<SignalRow>, request: Request, key: Key)
    ensures var a := PlacedBy(signal, request);
      Done(ExecutedLocally(db, signal, request), key) <==> (a.Some? && a.value.key == key) || Done(db, key)
  {
    hide IntentOf, HasFill, Inserted, FindKey, FillApplied;
    if PlacedBy(signal, request).Some? {
      var order := PlacedBy(signal, request).value;
      var id := FindKey(db.orders, order.key);
      var placed := db.(orders := Inserted(db.orders, order));
      InsertedOnce(db.orders, order);
      FilledOnce(placed, PAPER, id, order.symbol, order.side, order.quantity, order.estimatedPrice, request.cash);
      Reconciliation.FillAppliedFills(placed, PAPER, id, order.symbol, order.side, order.quantity,
                                      order.estimatedPrice, request.cash);
      if key != order.key {
        OtherKeyFound(db.orders, order, key);
      }
    }
  }

  /** Inserting one key does not move another. */
  lemma OtherKeyFound(orders: seq<Order>, row: Order, key: Key)
    requires key != row.key
    ensures var after := Inserted(orders, row);
      if FindKey(orders, key) < |orders| then FindKey(after, key) == FindKey(orders, key) < |after|
      else FindKey(after, key) == |after|
    ensures FindKey(orders, key) == FindKey(orders, row.key) ==> FindKey(orders, key) == |orders|
  {
    var after, f := Inserted(orders, row), FindKey(orders, key);
    var g := FindKey(after, key);
    assert forall i :: 0 <= i < |orders| ==> after[i] == orders[i];
    if f < |orders| {
      assert after[f].key == key;
    }
    if g < |orders| {
      assert orders[g].key == key;
    }
  }

  /** The amounts of one signal make one key exactly when equity and order type agree. */
  lemma SameKeyIff(signal: Option<SignalRow>, first: Request, second: Request)
    requires PlacedBy(signal, first).Some? && PlacedBy(signal, second).Some?
    ensures PlacedBy(signal, first).value.key == PlacedBy(signal, second).value.key
       <==> first.equity == second.equity && first.orderType == second.orderType
  {
    var share, price := signal.value.maxPositionPct / 100.0, signal.value.close;
    if share == 0.0 {
      DivideUnique(first.equity * share, price, 0.0);
      assert false;
    }
    ShareDecides(first.equity, second.equity, share, price);
  }

  lemma ShareDecides(a: real, b: real, share: real, price: real)
    requires share != 0.0 && price != 0.0
    ensures a * share / price == b * share / price <==> a == b
  {
    DivideTimes(a * share, price);
    DivideTimes(b * share, price);
    DivideUnique(a * share, share, a);
    DivideUnique(b * share, share, b);
  }

  /** So a signal not executed before is filled twice by two accepted requests
      exactly when they differ in equity or in order type. */
  lemma FilledTwiceIff(db: Db, signal: Option<SignalRow>, first: Request, second: Request)
    requires ExactlyOnce.FillsHaveOrders(db)
    requires PlacedBy(signal, first).Some? && PlacedBy(signal, second).Some?
    requires !Done(db, PlacedBy(signal, first).value.key) && !Done(db, PlacedBy(signal, second).value.key)
    ensures |ExecutedLocally(ExecutedLocally(db, signal, first), signal, second).fills|
         == |db.fills| + if first.equity == second.equity && first.orderType == second.orderType then 1 else 2
  {
    var once, key := ExecutedLocally(db, signal, first), PlacedBy(signal, second).value.key;
    hide PlacedBy, ExecutedLocally, Done, ExactlyOnce.FillsHaveOrders;
    SameKeyIff(signal, first, second);
    DoneAfter(db, signal, first, key);
    ExecutionFills(db, signal, first);
    ExecutionFills(once, signal, second);
  }

  /** An accepted request adds one fill unless its order already has one. */
  lemma ExecutionFills(db: Db, signal: Option<SignalRow>, request: Request)
    requires ExactlyOnce.FillsHaveOrders(db) && PlacedBy(signal, request).Some?
    ensures ExactlyOnce.FillsHaveOrders(ExecutedLocally(db, signal, request))
    ensures |ExecutedLocally(db, signal, request).fills|
         == |db.fills| + if Done(db, PlacedBy(signal, request).value.key) then 0 else 1
  {
    hide IntentOf, Upsert, PositionsValue, NewSnapshot, CurrentCash;
  }

  /** For instance: the same signal, with equity 100000 and then 99000. */
  lemma EquityMovedFillsAgain()
    ensures var signal := Some(SignalRow(7, "EQ_TREND_001", "AAPL", S.BUY, 100.0, 1.0, 2.0, 2.0));
      var first := Request(false, 100000.0, 100000.0, "market", true);
      var second := Request(false, 99000.0, 98000.0, "market", true);
      |ExecutedLocally(ExecutedLocally(EMPTY, signal, first), signal, second).fills| == 2
  {
    var signal := Some(SignalRow(7, "EQ_TREND_001", "AAPL", S.BUY, 100.0, 1.0, 2.0, 2.0));
    var first := Request(false, 100000.0, 100000.0, "market", true);
    var second := Request(false, 99000.0, 98000.0, "market", true);
    assert PlacedBy(signal, first).Some? && PlacedBy(signal, second).Some?;
    hide PlacedBy, ExecutedLocally;
    FilledTwiceIff(EMPTY, signal, first, second);
  }

  lemma FilledOnce(db: Db, environment: string, id: nat, symbol: string, side: Side, quantity: real, price: real,
                   cash: real)
    ensures var once := FillApplied(db, environment, id, symbol, side, quantity, price, cash);
      && HasFill(once.fills, id)
      && once.orders == db.orders
      && forall again: real :: FillApplied(once, environment, id, symbol, side, quantity, price, again) == once
  {
    hide Upsert, PositionsValue, NewSnapshot;
    if !HasFill(db.fills, id) {
      var once := FillApplied(db, environment, id, symbol, side, quantity, price, cash);
      assert once.fills[|db.fills|].orderId == id;
    }
  }

  /** A first execution is filled at once, whole, at the signal's close: one fill
      and one snapshot, with the request's cash less what the fill pays out. */
  lemma LocalExecutionBooks(db: Db, signal: SignalRow, request: Request)
    requires PlacedBy(Some(signal), request).Some?
    requires !HasFill(db.fills, FindKey(db.orders, PlacedBy(Some(signal), request).value.key))
    ensures var after, order := ExecutedLocally(db, Some(signal), request), PlacedBy(Some(signal), request).value;
      && |after.fills| == |db.fills| + 1 && db.fills <= after.fills
      && var f := after.fills[|db.fills|];
         && f.orderId == FindKey(db.orders, order.key) && f.environment == PAPER && f.symbol == Upper(signal.symbol)
         && (f.side == Buy <==> signal.direction == S.BUY)
         && f.quantity == order.quantity && f.price == signal.close && f.notional == Value(f.quantity, f.price)
         && |after.snapshots| == |db.snapshots| + 1
         && after.snapshots[|db.snapshots|].environment == PAPER
         && after.snapshots[|db.snapshots|].cash
            == (if f.side == Buy then request.cash - f.notional else request.cash + f.notional)
  {
    hide Upsert, PositionsValue, Metrics.StoredDrawdown, Navs, Inserted, FindKey, HasFill, Upper;
    var order := PlacedBy(Some(signal), request).value;
    assert 0.0 < order.quantity;
  }

  /** A first execution without a broker keeps the paper books exactly when the
      request names the cash the ledger holds. */
  lemma LocalExecutionAgreesIff(db: Db, signal: SignalRow, request: Request)
    requires Agrees(db, PAPER)
    requires !request.live && request.approved && signal.direction != S.HOLD
    requires IntentOf(signal, request.equity, request.orderType, PaperAccepted, None).Some?
    requires !HasFill(db.fills,
                      FindKey(db.orders,
                              IntentOf(signal, request.equity, request.orderType, PaperAccepted, None).value.key))
    ensures Agrees(ExecutedLocally(db, Some(signal), request), PAPER)
       <==> request.cash == CurrentCash(db.snapshots, PAPER)
  {
    var order := IntentOf(signal, request.equity, request.orderType, PaperAccepted, None).value;
    assert 0.0 < order.quantity;
    hide IntentOf, FillApplied, Held, CostOf, NetQuantity, OpenRound, In, CurrentCash, Outlay, PositionsValue,
      Realised, FindKey, Inserted;
    var placed := db.(orders := Inserted(db.orders, order));
    assert Agrees(placed, PAPER);
    FillAgreesIff(placed, PAPER, FindKey(db.orders, order.key), order.symbol, order.side, order.quantity,
                  order.estimatedPrice, request.cash);
    hide Agrees;
  }
}
