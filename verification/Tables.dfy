/** The paper-trading tables and what each statement does to them.

    A table is the sequence of its rows in insertion order; an order's id is the
    position of its row. */
module Tables {
  import opened Basics
  import Metrics

  datatype Side = Buy | Sell

  datatype Status = Submitted | PaperAccepted | Filled | Cancelled | Rejected

  datatype Trigger = StopLoss | TakeProfit

  /** Strategy orders come from a signal, close orders from the buy they close. */
  datatype Origin = FromSignal(strategyId: string, signalId: nat) | CloseOf(parent: nat, trigger: Trigger)

  /** Idempotency keys before hashing; the hash is taken to be injective. */
  datatype Key =
    | SignalKey(signalId: nat, side: Side, orderType: string, quantity: real, price: real)
    | CloseKey(parent: nat, trigger: Trigger)

  datatype Execution = Execution(price: real, quantity: real, at: string)

  datatype Order = Order(
    environment: string,
    status: Status,
    symbol: string,
    side: Side,
    quantity: real,
    estimatedPrice: real,
    stopLoss: Option<real>,
    takeProfit: Option<real>,
    origin: Origin,
    key: Key,
    brokerOrderId: Option<string>,
    execution: Option<Execution>)

  datatype Fill = Fill(
    environment: string,
    orderId: nat,
    symbol: string,
    side: Side,
    quantity: real,
    price: real,
    notional: real)

  datatype Position = Position(
    environment: string,
    symbol: string,
    quantity: real,
    averagePrice: real,
    marketValue: real)

  datatype Snapshot = Snapshot(environment: string, nav: real, cash: real, drawdown: real)

  datatype Db = Db(orders: seq<Order>, fills: seq<Fill>, positions: seq<Position>, snapshots: seq<Snapshot>)

  const EMPTY := Db([], [], [], [])

  const STARTING_CASH := 100000.0

  // ---------------------------------------------------------------- amounts

  function Signed(side: Side, amount: real): real
  {
    if side == Buy then amount else -amount
  }

  // ---------------------------------------------------------------- fills

  predicate HasFill(fills: seq<Fill>, orderId: nat)
  {
    exists i :: 0 <= i < |fills| && fills[i].orderId == orderId
  }

  // ---------------------------------------------------------------- positions

  predicate At(p: Position, environment: string, symbol: string)
  {
    p.environment == environment && p.symbol == symbol
  }

  /** Weighted average of what was held and what was traded, sells included;
      zero when nothing is left. */
  function AveragePrice(quantity: real, average: real, traded: real, price: real): real
  {
    if quantity + traded == 0.0 then 0.0
    else (Value(quantity, average) + Value(traded, price)) / (quantity + traded)
  }

  /** `INSERT ... ON CONFLICT (environment, symbol) DO UPDATE`. */
  function Upsert(rows: seq<Position>, environment: string, symbol: string, traded: real, price: real): seq<Position>
  {
    if rows == [] then [Position(environment, symbol, traded, price, Value(traded, price))]
    else
      var p := rows[0];
      if At(p, environment, symbol) then
        [p.(quantity := p.quantity + traded,
            averagePrice := AveragePrice(p.quantity, p.averagePrice, traded, price),
            marketValue := Value(p.quantity + traded, price))] + rows[1..]
      else [p] + Upsert(rows[1..], environment, symbol, traded, price)
  }

  /** `SUM(quantity * average_price)` over one environment. */
  function PositionsValue(rows: seq<Position>, environment: string): real
  {
    if rows == [] then 0.0
    else
      PositionsValue(rows[1..], environment)
      + (if rows[0].environment == environment then Value(rows[0].quantity, rows[0].averagePrice) else 0.0)
  }

  // ---------------------------------------------------------------- snapshots

  /** Net asset values of one environment, oldest first. */
  function Navs(snapshots: seq<Snapshot>, environment: string): seq<real>
  {
    if snapshots == [] then []
    else
      var last := snapshots[|snapshots| - 1];
      Navs(snapshots[..|snapshots| - 1], environment) + if last.environment == environment then [last.nav] else []
  }

  /** `current_cash`: the newest snapshot's cash, or the starting cash. */
  function CurrentCash(snapshots: seq<Snapshot>, environment: string): real
  {
    if snapshots == [] then STARTING_CASH
    else if snapshots[|snapshots| - 1].environment == environment then snapshots[|snapshots| - 1].cash
    else CurrentCash(snapshots[..|snapshots| - 1], environment)
  }

  function NewSnapshot(snapshots: seq<Snapshot>, environment: string, nav: real, cash: real): Snapshot
  {
    Snapshot(environment, nav, cash, Metrics.StoredDrawdown(Navs(snapshots, environment), nav))
  }

  // ---------------------------------------------------------------- apply_paper_fill

  function FillRow(environment: string, orderId: nat, symbol: string, side: Side, quantity: real, price: real): Fill
  {
    var amount := Abs(Signed(side, quantity));
    Fill(environment, orderId, Upper(symbol), side, amount, price, Value(amount, price))
  }

  /** A second fill of the same order changes nothing at all. */
  function FillApplied(db: Db, environment: string, orderId: nat, symbol: string, side: Side, quantity: real,
                       price: real, startingCash: real): Db
  {
    if HasFill(db.fills, orderId) then db
    else
      var fill := FillRow(environment, orderId, symbol, side, quantity, price);
      var positions := Upsert(db.positions, environment, Upper(symbol), Signed(side, quantity), price);
      var cash := startingCash - Signed(side, fill.notional);
      var nav := cash + PositionsValue(positions, environment);
      db.(fills := db.fills + [fill],
          positions := positions,
          snapshots := db.snapshots + [NewSnapshot(db.snapshots, environment, nav, cash)])
  }

  // ---------------------------------------------------------------- mark to market

  datatype Valuation = Valuation(symbol: string, marketValue: real)

  /** `UPDATE positions SET market_value`. */
  function Revalued(rows: seq<Position>, environment: string, v: Valuation): (r: seq<Position>)
    ensures |r| == |rows|
    ensures forall i :: 0 <= i < |rows| ==>
      r[i] == if At(rows[i], environment, Upper(v.symbol)) then rows[i].(marketValue := v.marketValue) else rows[i]
  {
    seq(|rows|, i requires 0 <= i < |rows| =>
      if At(rows[i], environment, Upper(v.symbol)) then rows[i].(marketValue := v.marketValue) else rows[i])
  }

  function RevaluedAll(rows: seq<Position>, environment: string, valuations: seq<Valuation>): seq<Position>
  {
    if valuations == [] then rows
    else Revalued(RevaluedAll(rows, environment, valuations[..|valuations| - 1]), environment,
                  valuations[|valuations| - 1])
  }

  function SumValuations(valuations: seq<Valuation>): real
  {
    if valuations == [] then 0.0
    else SumValuations(valuations[..|valuations| - 1]) + valuations[|valuations| - 1].marketValue
  }

  function MarkToMarketRecorded(db: Db, environment: string, cash: real, valuations: seq<Valuation>): Db
  {
    db.(positions := RevaluedAll(db.positions, environment, valuations),
        snapshots := db.snapshots
                     + [NewSnapshot(db.snapshots, environment, cash + SumValuations(valuations), cash)])
  }

  /** Positions of one environment for which the broker quoted a price. */
  function Priced(rows: seq<Position>, environment: string, prices: map<string, real>): seq<Valuation>
  {
    if rows == [] then []
    else
      var last := rows[|rows| - 1];
      Priced(rows[..|rows| - 1], environment, prices)
      + if last.environment == environment && last.symbol in prices
        then [Valuation(last.symbol, Value(last.quantity, prices[last.symbol]))] else []
  }

  /** One position as a mark-to-market reports it; without a quote it is an error. */
  datatype ValuedPosition = ValuedPosition(
    symbol: string,
    quantity: real,
    averagePrice: real,
    latestPrice: Option<real>,
    marketValue: Option<real>,
    unrealisedPnl: Option<real>)

  function ValuedOf(p: Position, prices: map<string, real>): ValuedPosition
  {
    if p.symbol in prices then
      var price := prices[p.symbol];
      ValuedPosition(p.symbol, p.quantity, p.averagePrice, Some(price), Some(Value(p.quantity, price)),
                     Some(Value(p.quantity, price - p.averagePrice)))
    else ValuedPosition(p.symbol, p.quantity, p.averagePrice, None, None, None)
  }

  function ValuedPositions(rows: seq<Position>, environment: string, prices: map<string, real>): seq<ValuedPosition>
  {
    if rows == [] then []
    else
      var last := rows[|rows| - 1];
      ValuedPositions(rows[..|rows| - 1], environment, prices)
      + if last.environment == environment then [ValuedOf(last, prices)] else []
  }

  /** Symbols for which the broker had no price. */
  function Unquoted(rows: seq<Position>, environment: string, prices: map<string, real>): seq<string>
  {
    if rows == [] then []
    else
      var last := rows[|rows| - 1];
      Unquoted(rows[..|rows| - 1], environment, prices)
      + if last.environment == environment && last.symbol !in prices then [last.symbol] else []
  }

  datatype MarkToMarketResult = MarkToMarketResult(
    degraded: bool,
    cash: real,
    nav: real,
    positionsValue: real,
    positions: seq<ValuedPosition>,
    errors: seq<string>)

  function ResultOf(db: Db, environment: string, prices: map<string, real>): MarkToMarketResult
  {
    var cash := CurrentCash(db.snapshots, environment);
    var worth := SumValuations(Priced(db.positions, environment, prices));
    var errors := Unquoted(db.positions, environment, prices);
    MarkToMarketResult(errors != [], cash, cash + worth, worth, ValuedPositions(db.positions, environment, prices),
                       errors)
  }

  predicate HasPositions(rows: seq<Position>, environment: string)
  {
    exists i :: 0 <= i < |rows| && rows[i].environment == environment
  }

  lemma {:induction false} NothingHeld(rows: seq<Position>, environment: string, prices: map<string, real>)
    requires !HasPositions(rows, environment)
    ensures Priced(rows, environment, prices) == []
    ensures ValuedPositions(rows, environment, prices) == [] && Unquoted(rows, environment, prices) == []
  {
    if rows != [] {
      var front := rows[..|rows| - 1];
      assert forall i :: 0 <= i < |front| ==> front[i] == rows[i];
      NothingHeld(front, environment, prices);
    }
  }

  /** `PortfolioMarkToMarketService.run`: with positions but not one price there
      is no snapshot. */
  function MarkedToMarket(db: Db, environment: string, prices: map<string, real>): Db
  {
    var cash := CurrentCash(db.snapshots, environment);
    var valuations := Priced(db.positions, environment, prices);
    if !HasPositions(db.positions, environment) then MarkToMarketRecorded(db, environment, cash, [])
    else if valuations == [] then db
    else MarkToMarketRecorded(db, environment, cash, valuations)
  }

  // ---------------------------------------------------------------- orders

  /** Position of the order with this idempotency key, or the number of orders. */
  function FindKey(orders: seq<Order>, key: Key): (i: nat)
    ensures i <= |orders|
    ensures i < |orders| ==> orders[i].key == key
    ensures forall j :: 0 <= j < i ==> orders[j].key != key
  {
    if orders == [] then 0 else if orders[0].key == key then 0 else 1 + FindKey(orders[1..], key)
  }

  /** `INSERT ... ON CONFLICT (idempotency_key) DO UPDATE SET raw_payload = raw_payload`:
      an existing row wins, unchanged. The new or existing id is `FindKey(orders, row.key)`. */
  function Inserted(orders: seq<Order>, row: Order): seq<Order>
  {
    if FindKey(orders, row.key) < |orders| then orders else orders + [row.(symbol := Upper(row.symbol))]
  }

  /** `UPDATE ... WHERE id = ... AND status = 'submitted'`. */
  function MarkedFilled(orders: seq<Order>, id: nat, execution: Execution): seq<Order>
  {
    if id < |orders| && orders[id].status == Submitted
    then orders[id := orders[id].(status := Filled, execution := Some(execution))]
    else orders
  }

  function MarkedCancelled(orders: seq<Order>, id: nat): seq<Order>
  {
    if id < |orders| && orders[id].status == Submitted
    then orders[id := orders[id].(status := Cancelled)]
    else orders
  }

  predicate IsPending(o: Order)
  {
    o.status == Submitted && o.brokerOrderId.Some?
  }

  /** `pending_broker_orders`, oldest first. */
  function PendingIds(orders: seq<Order>): (ids: seq<nat>)
    ensures forall i :: 0 <= i < |ids| ==> ids[i] < |orders| && IsPending(orders[ids[i]])
    ensures forall i, j :: 0 <= i < j < |ids| ==> ids[i] < ids[j]
    ensures forall id :: 0 <= id < |orders| && IsPending(orders[id]) ==> id in ids
  {
    if orders == [] then []
    else
      var n := |orders| - 1;
      PendingIds(orders[..n]) + if IsPending(orders[n]) then [n] else []
  }

  predicate HasOrderForSignal(orders: seq<Order>, signalId: nat)
  {
    exists i :: 0 <= i < |orders|
      && orders[i].origin.FromSignal? && orders[i].origin.signalId == signalId && orders[i].status != Rejected
  }

  predicate HasKey(orders: seq<Order>, key: Key)
  {
    exists i :: 0 <= i < |orders| && orders[i].key == key
  }

  predicate IsFilledBuy(o: Order, symbol: string)
  {
    o.symbol == Upper(symbol) && o.side == Buy && o.status == Filled
  }

  /** `latest_filled_buy`: the newest filled buy of a symbol. */
  function LatestFilledBuy(orders: seq<Order>, symbol: string): (r: Option<nat>)
    ensures r.Some? ==> r.value < |orders| && IsFilledBuy(orders[r.value], symbol)
    ensures forall i :: (if r.Some? then r.value + 1 else 0) <= i < |orders| ==> !IsFilledBuy(orders[i], symbol)
  {
    if orders == [] then None
    else if IsFilledBuy(orders[|orders| - 1], symbol) then Some(|orders| - 1)
    else LatestFilledBuy(orders[..|orders| - 1], symbol)
  }
}
