/** What a broker's answer is booked at. */
module Booking {
  import opened Basics
  import opened Tables
  import opened Reconciliation
  import Ledger
  import Metrics

  /** The broker reports the order executed, and nothing raises. */
  predicate Executes(reply: Reply)
  {
    reply.Answer? && reply.fault == NoFault && (reply.status == "filled" || reply.status == "partially_filled")
  }

  /** What the broker reports, and the order's own amount where it reports nothing. */
  function Booked(reported: Option<real>, own: real): real
  {
    if reported.Some? then reported.value else own
  }

  function BookedQuantity(o: Order, reply: Reply): real
    requires reply.Answer?
  {
    Booked(reply.filledQty, o.quantity)
  }

  function BookedPrice(o: Order, reply: Reply): real
    requires reply.Answer?
  {
    Booked(reply.filledPrice, o.estimatedPrice)
  }

  /** The order row an answer leaves behind. */
  predicate RowBooked(before: Order, after: Order, reply: Reply)
    requires reply.Answer?
  {
    && after.status == Filled
    && after.execution.Some?
    && after.execution.value.quantity == BookedQuantity(before, reply)
    && after.execution.value.price == BookedPrice(before, reply)
    && after.execution.value.at == reply.filledAt
    && after == before.(status := Filled, execution := after.execution)
  }

  /** The fill row an answer leaves behind. */
  predicate FillBooked(o: Order, id: nat, f: Fill, reply: Reply)
    requires reply.Answer?
  {
    && f.orderId == id && f.environment == o.environment && f.symbol == Upper(o.symbol) && f.side == o.side
    && f.quantity == Abs(BookedQuantity(o, reply))
    && f.price == BookedPrice(o, reply)
    && f.notional == f.quantity * f.price
  }

  /** An answer that executes a submitted order for the first time is booked at
      the broker's quantity and price: in the order, in one new fill, in the
      position, in cash, and in the position's market value. */
  lemma AnswerIsBooked(db: Db, id: nat, reply: Reply)
    requires id < |db.orders| && db.orders[id].status == Submitted && !HasFill(db.fills, id)
    requires Executes(reply)
    ensures var o, after := db.orders[id], Reconciled(db, id, db.orders[id], reply);
      && |after.orders| == |db.orders| && RowBooked(o, after.orders[id], reply)
      && |after.fills| == |db.fills| + 1 && db.fills <= after.fills
      && FillBooked(o, id, after.fills[|db.fills|], reply)
      && Ledger.Held(after.positions, o.environment, Upper(o.symbol))
         == Ledger.Held(db.positions, o.environment, Upper(o.symbol))
            + (if o.side == Buy then BookedQuantity(o, reply) else -BookedQuantity(o, reply))
      && |after.snapshots| == |db.snapshots| + 1 && db.snapshots <= after.snapshots
      && after.snapshots[|db.snapshots|].environment == o.environment
      && after.snapshots[|db.snapshots|].cash
         == CurrentCash(db.snapshots, o.environment)
            - (if o.side == Buy then 1.0 else -1.0) * after.fills[|db.fills|].notional
      && MarketValueOf(after.positions, o.environment, Upper(o.symbol))
         == Some(Value(Ledger.Held(after.positions, o.environment, Upper(o.symbol)), BookedPrice(o, reply)))
  {
    hide Upsert, CurrentCash, PositionsValue, Metrics.StoredDrawdown, Navs, Upper;
    var o := db.orders[id];
    var quantity := BookedQuantity(o, reply);
    Ledger.UpsertEffect(db.positions, o.environment, Upper(o.symbol), Signed(o.side, quantity), BookedPrice(o, reply));
    UpsertValues(db.positions, o.environment, Upper(o.symbol), Signed(o.side, quantity), BookedPrice(o, reply));
    hide Ledger.Held, Ledger.CostOf, MarketValueOf;
  }

  function MarketValueOf(rows: seq<Position>, environment: string, symbol: string): Option<real>
  {
    if rows == [] then None
    else if At(rows[0], environment, symbol) then Some(rows[0].marketValue)
    else MarketValueOf(rows[1..], environment, symbol)
  }

  /** A traded position is valued at the price of the trade. */
  lemma {:induction false} UpsertValues(rows: seq<Position>, environment: string, symbol: string, traded: real,
                                        price: real)
    ensures var r := Upsert(rows, environment, symbol, traded, price);
      MarketValueOf(r, environment, symbol) == Some(Value(Ledger.Held(r, environment, symbol), price))
  {
    hide AveragePrice, Value;
    if rows != [] && !At(rows[0], environment, symbol) {
      UpsertValues(rows[1..], environment, symbol, traded, price);
    }
  }

  // ---------------------------------------------------------------- over a whole pass

  /** Later answers about other orders leave the booked rows alone. */
  lemma OthersKeepBooked(db: Db, id: nat, reply: Reply, k: nat)
    requires id < |db.orders| && k < |db.orders| && k != id
    ensures var after := Reconciled(db, id, db.orders[id], reply);
      |after.orders| == |db.orders| && after.orders[k] == db.orders[k] && db.fills <= after.fills
  {
    ReconciledEvolves(db, id, db.orders[id], reply);
    hide Upsert, PositionsValue, CurrentCash, NewSnapshot, HasFill, Evolves;
  }

  ghost predicate InPass(db: Db, after: Db, id: nat, reply: Reply)
    requires reply.Answer?
  {
    && id < |db.orders| == |after.orders|
    && RowBooked(db.orders[id], after.orders[id], reply)
    && exists k :: 0 <= k < |after.fills| && FillBooked(db.orders[id], id, after.fills[k], reply)
  }

  lemma {:induction false} PassBooksUpTo(db: Db, ids: seq<nat>, n: nat, broker: nat -> Reply, i: nat)
    requires i < n <= |ids| && Increasing(ids) && Within(ids, db.orders)
    requires db.orders[ids[i]].status == Submitted && !HasFill(db.fills, ids[i])
    requires Executes(broker(ids[i]))
    ensures InPass(db, PassAfter(db, ids, n, broker), ids[i], broker(ids[i]))
  {
    hide Reconciled, RowBooked, FillBooked, HasFill;
    var before, last := PassAfter(db, ids, n - 1, broker), ids[n - 1];
    PassStep(db, ids, n, broker);
    if i == n - 1 {
      PassLeavesOthers(db, ids, n - 1, broker, last);
      AnswerIsBooked(before, last, broker(last));
      assert FillBooked(db.orders[last], last, PassAfter(db, ids, n, broker).fills[|before.fills|], broker(last));
    } else {
      PassBooksUpTo(db, ids, n - 1, broker, i);
      OthersKeepBooked(before, last, broker(last), ids[i]);
      var k :| 0 <= k < |before.fills| && FillBooked(db.orders[ids[i]], ids[i], before.fills[k], broker(ids[i]));
      assert PassAfter(db, ids, n, broker).fills[k] == before.fills[k];
    }
  }

  /** A pass removes no fill. */
  lemma {:induction false} PassKeepsFillRows(db: Db, ids: seq<nat>, n: nat, broker: nat -> Reply)
    requires n <= |ids| && Within(ids, db.orders)
    ensures db.fills <= PassAfter(db, ids, n, broker).fills
  {
    hide Reconciled, Within;
    if n > 0 {
      PassKeepsFillRows(db, ids, n - 1, broker);
      PassStep(db, ids, n, broker);
      var before := PassAfter(db, ids, n - 1, broker);
      AnswerKeepsFillRows(before, ids[n - 1], broker(ids[n - 1]));
    }
  }

  lemma AnswerKeepsFillRows(db: Db, id: nat, reply: Reply)
    requires id < |db.orders|
    ensures db.fills <= Reconciled(db, id, db.orders[id], reply).fills
  {
    hide Upsert, PositionsValue, CurrentCash, NewSnapshot, HasFill, SaysFilled, SaysOver;
  }

  /** Every pending order without a fill that the broker reports executed is
      booked by the pass at the broker's quantity and price. */
  lemma PassBooks(db: Db, broker: nat -> Reply, id: nat)
    requires id < |db.orders| && IsPending(db.orders[id]) && !HasFill(db.fills, id)
    requires Executes(broker(id))
    ensures InPass(db, Pass(db, broker), id, broker(id))
  {
    hide PassAfter, PendingIds, Increasing, InPass, HasFill;
    var ids := PendingIds(db.orders);
    PendingIncreasing(db.orders);
    var i :| 0 <= i < |ids| && ids[i] == id;
    PassBooksUpTo(db, ids, |ids|, broker, i);
  }
}
