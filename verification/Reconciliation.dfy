/** Reconciling submitted orders with the broker, and what a pass reports. */
module Reconciliation {
  import opened Basics
  import opened Tables

  /** Where a database call of this order raises, if anywhere. */
  datatype Fault = NoFault | MarkFails | FillFails

  /** What the broker says about one order; `Unreachable` when asking raises. */
  datatype Reply =
    | Unreachable
    | Answer(status: string, filledQty: Option<real>, filledPrice: Option<real>, filledAt: string, ageHours: real,
             fault: Fault)

  datatype Verdict = WasFilled | WasCancelled | LeftPending | Errored

  const MAX_ORDER_AGE_HOURS := 48.0

  predicate SaysFilled(reply: Reply)
  {
    reply.Answer? && (reply.status == "filled" || reply.status == "partially_filled")
  }

  predicate SaysTerminal(reply: Reply)
  {
    reply.Answer? && (reply.status == "rejected" || reply.status == "canceled" || reply.status == "expired"
                      || reply.status == "done_for_day" || reply.status == "stopped")
  }

  predicate SaysPending(reply: Reply)
  {
    reply.Answer? && (reply.status == "pending_new" || reply.status == "accepted"
                      || reply.status == "accepted_for_bidding"
                      || reply.status == "new" || reply.status == "held" || reply.status == "pending_cancel")
  }

  /** Terminal at the broker, or pending for longer than an order may stay. */
  predicate SaysOver(reply: Reply)
  {
    SaysTerminal(reply) || (SaysPending(reply) && reply.ageHours > MAX_ORDER_AGE_HOURS)
  }

  function VerdictOf(reply: Reply): Verdict
  {
    if reply.Unreachable? then Errored
    else if SaysFilled(reply) then (if reply.fault == NoFault then WasFilled else Errored)
    else if SaysOver(reply) then (if reply.fault == MarkFails then Errored else WasCancelled)
    else LeftPending
  }

  /** What the broker leaves out is taken from the order. */
  function ExecutionOf(order: Order, reply: Reply): Execution
    requires reply.Answer?
  {
    Execution(
      match reply.filledPrice { case Some(p) => p case None => order.estimatedPrice },
      match reply.filledQty { case Some(q) => q case None => order.quantity },
      reply.filledAt)
  }

  /** The order is marked filled first; the fill is applied after that, from the
      cash current at that moment, and may be lost if applying it raises. */
  function Reconciled(db: Db, id: nat, order: Order, reply: Reply): Db
  {
    if SaysFilled(reply) && reply.fault != MarkFails then
      var execution := ExecutionOf(order, reply);
      var marked := db.(orders := MarkedFilled(db.orders, id, execution));
      if reply.fault == FillFails then marked
      else FillApplied(marked, order.environment, id, order.symbol, order.side, execution.quantity, execution.price,
                       CurrentCash(marked.snapshots, order.environment))
    else if SaysOver(reply) && !SaysFilled(reply) && reply.fault != MarkFails then
      db.(orders := MarkedCancelled(db.orders, id))
    else db
  }

  predicate Within(ids: seq<nat>, orders: seq<Order>)
  {
    forall i :: 0 <= i < |ids| ==> ids[i] < |orders|
  }

  /** The first `n` orders of a pass over `ids`. */
  function PassAfter(db: Db, ids: seq<nat>, n: nat, broker: nat -> Reply): (r: Db)
    requires n <= |ids|
    requires Within(ids, db.orders)
    ensures |r.orders| == |db.orders|
  {
    if n == 0 then db
    else
      var before := PassAfter(db, ids, n - 1, broker);
      Reconciled(before, ids[n - 1], before.orders[ids[n - 1]], broker(ids[n - 1]))
  }

  lemma PassStep(db: Db, ids: seq<nat>, n: nat, broker: nat -> Reply)
    requires 0 < n <= |ids| && Within(ids, db.orders)
    ensures var id, before := ids[n - 1], PassAfter(db, ids, n - 1, broker);
      && id < |before.orders| == |db.orders|
      && PassAfter(db, ids, n, broker) == Reconciled(before, id, before.orders[id], broker(id))
  {
    hide Reconciled;
  }

  function Pass(db: Db, broker: nat -> Reply): Db
  {
    PassAfter(db, PendingIds(db.orders), |PendingIds(db.orders)|, broker)
  }

  /** How many of the first `n` orders of a pass get this verdict. */
  function Count(ids: seq<nat>, n: nat, broker: nat -> Reply, verdict: Verdict): nat
    requires n <= |ids|
  {
    if n == 0 then 0
    else Count(ids, n - 1, broker, verdict) + if VerdictOf(broker(ids[n - 1])) == verdict then 1 else 0
  }

  /** The counters of a pass after its first `n` orders. */
  predicate Counted(ids: seq<nat>, n: nat, broker: nat -> Reply, filled: int, cancelled: int, errors: int)
    requires n <= |ids|
  {
    && filled == Count(ids, n, broker, WasFilled)
    && cancelled == Count(ids, n, broker, WasCancelled)
    && errors == Count(ids, n, broker, Errored)
  }

  lemma CountedNext(ids: seq<nat>, n: nat, broker: nat -> Reply, filled: int, cancelled: int, errors: int)
    requires n < |ids| && Counted(ids, n, broker, filled, cancelled, errors)
    ensures var v := VerdictOf(broker(ids[n]));
      Counted(ids, n + 1, broker,
              filled + (if v == WasFilled then 1 else 0),
              cancelled + (if v == WasCancelled then 1 else 0),
              errors + (if v == Errored then 1 else 0))
  {
    hide VerdictOf;
  }

  lemma {:induction false} CountsPartition(ids: seq<nat>, n: nat, broker: nat -> Reply)
    requires n <= |ids|
    ensures Count(ids, n, broker, WasFilled) + Count(ids, n, broker, WasCancelled)
            + Count(ids, n, broker, LeftPending) + Count(ids, n, broker, Errored) == n
  {
    if n > 0 {
      CountsPartition(ids, n - 1, broker);
    }
  }

  // ---------------------------------------------------------------- order rows over time

  /** An order row stays as it is, or leaves `submitted` once: to `filled`, with
      its execution, or to `cancelled`. Nothing else in it ever changes. */
  predicate RowEvolves(o: Order, p: Order)
  {
    || p == o
    || (o.status == Submitted && p.execution.Some? && p == o.(status := Filled, execution := p.execution))
    || (o.status == Submitted && p == o.(status := Cancelled))
  }

  ghost predicate Evolves(a: seq<Order>, b: seq<Order>)
  {
    |a| <= |b| && forall i :: 0 <= i < |a| ==> RowEvolves(a[i], b[i])
  }

  lemma EvolvesTransitive(a: seq<Order>, b: seq<Order>, c: seq<Order>)
    requires Evolves(a, b) && Evolves(b, c)
    ensures Evolves(a, c)
  {
    forall i | 0 <= i < |a|
      ensures RowEvolves(a[i], c[i])
    {
      assert RowEvolves(a[i], b[i]) && RowEvolves(b[i], c[i]);
    }
  }

  lemma ReconciledEvolves(db: Db, id: nat, order: Order, reply: Reply)
    ensures Evolves(db.orders, Reconciled(db, id, order, reply).orders)
    ensures |Reconciled(db, id, order, reply).orders| == |db.orders|
    ensures forall i :: 0 <= i < |db.orders| && i != id ==> Reconciled(db, id, order, reply).orders[i] == db.orders[i]
  {
    hide Upsert, PositionsValue, CurrentCash, NewSnapshot;
  }

  lemma {:induction false} PassEvolves(db: Db, ids: seq<nat>, n: nat, broker: nat -> Reply)
    requires n <= |ids|
    requires Within(ids, db.orders)
    ensures Evolves(db.orders, PassAfter(db, ids, n, broker).orders)
  {
    hide Reconciled, Within;
    if n > 0 {
      var before := PassAfter(db, ids, n - 1, broker);
      PassStep(db, ids, n, broker);
      PassEvolves(db, ids, n - 1, broker);
      ReconciledEvolves(before, ids[n - 1], before.orders[ids[n - 1]], broker(ids[n - 1]));
      EvolvesTransitive(db.orders, before.orders, PassAfter(db, ids, n, broker).orders);
    }
  }

  /** A pass touches no order it was not asked about, and fills none. */
  lemma {:induction false} PassLeavesOthers(db: Db, ids: seq<nat>, n: nat, broker: nat -> Reply, k: nat)
    requires n <= |ids|
    requires Within(ids, db.orders)
    requires forall i :: 0 <= i < n ==> ids[i] != k
    ensures k < |db.orders| ==> PassAfter(db, ids, n, broker).orders[k] == db.orders[k]
    ensures HasFill(PassAfter(db, ids, n, broker).fills, k) <==> HasFill(db.fills, k)
  {
    hide Reconciled, RowEvolves, Within, HasFill;
    if n > 0 {
      var before := PassAfter(db, ids, n - 1, broker);
      PassStep(db, ids, n, broker);
      PassLeavesOthers(db, ids, n - 1, broker, k);
      ReconciledEvolves(before, ids[n - 1], before.orders[ids[n - 1]], broker(ids[n - 1]));
      ReconciledFills(before, ids[n - 1], before.orders[ids[n - 1]], broker(ids[n - 1]));
    }
  }

  /** The status in which an order that was pending leaves a pass. */
  function StatusAfter(reply: Reply): Status
  {
    if SaysFilled(reply) && reply.fault != MarkFails then Filled
    else if SaysOver(reply) && !SaysFilled(reply) && reply.fault != MarkFails then Cancelled
    else Submitted
  }

  lemma ReconciledStatus(db: Db, id: nat, reply: Reply)
    requires id < |db.orders| && db.orders[id].status == Submitted
    ensures |Reconciled(db, id, db.orders[id], reply).orders| == |db.orders|
    ensures Reconciled(db, id, db.orders[id], reply).orders[id].status == StatusAfter(reply)
  {
    hide Upsert, PositionsValue, CurrentCash, NewSnapshot;
  }

  ghost predicate Increasing(ids: seq<nat>)
  {
    forall i, j :: 0 <= i < j < |ids| ==> ids[i] < ids[j]
  }

  lemma {:induction false} PassStatus(db: Db, ids: seq<nat>, n: nat, broker: nat -> Reply, i: nat)
    requires i < n <= |ids| && Increasing(ids)
    requires Within(ids, db.orders)
    requires db.orders[ids[i]].status == Submitted
    ensures PassAfter(db, ids, n, broker).orders[ids[i]].status == StatusAfter(broker(ids[i]))
  {
    var last, before := ids[n - 1], PassAfter(db, ids, n - 1, broker);
    if i == n - 1 {
      PassLeavesOthers(db, ids, n - 1, broker, last);
      hide Reconciled, StatusAfter, HasFill, Increasing;
      ReconciledStatus(before, last, broker(last));
    } else {
      assert ids[i] != last;
      hide Reconciled, StatusAfter, RowEvolves, Increasing;
      PassStatus(db, ids, n - 1, broker, i);
      ReconciledEvolves(before, last, before.orders[last], broker(last));
    }
  }

  /** What a verdict says about the status the order is left in. */
  predicate StatusMatches(status: Status, reply: Reply)
  {
    match VerdictOf(reply)
    case WasFilled => status == Filled
    case WasCancelled => status == Cancelled
    case LeftPending => status == Submitted
    case Errored => status == if SaysFilled(reply) && reply.fault == FillFails then Filled else Submitted
  }

  /** Every order of a pass is accounted for: reported as filled or cancelled it
      is so, left pending it is still submitted; an error leaves it submitted,
      or filled when only applying the fill raised. The number reported as
      pending is the number still submitted without an error. */
  lemma PassAccountsForEveryOrder(db: Db, broker: nat -> Reply)
    ensures var ids := PendingIds(db.orders);
      && |ids| - Count(ids, |ids|, broker, WasFilled) - Count(ids, |ids|, broker, WasCancelled)
         - Count(ids, |ids|, broker, Errored) == Count(ids, |ids|, broker, LeftPending)
      && forall i :: 0 <= i < |ids| ==> StatusMatches(Pass(db, broker).orders[ids[i]].status, broker(ids[i]))
  {
    var ids := PendingIds(db.orders);
    hide PassAfter, Count, StatusMatches, VerdictOf;
    CountsPartition(ids, |ids|, broker);
    forall i | 0 <= i < |ids|
      ensures StatusMatches(Pass(db, broker).orders[ids[i]].status, broker(ids[i]))
    {
      PassStatusMatches(db, broker, i);
    }
  }

  lemma PassStatusMatches(db: Db, broker: nat -> Reply, i: nat)
    requires i < |PendingIds(db.orders)|
    ensures var id := PendingIds(db.orders)[i]; StatusMatches(Pass(db, broker).orders[id].status, broker(id))
  {
    hide PassAfter, PendingIds, Increasing;
    var ids := PendingIds(db.orders);
    PendingIncreasing(db.orders);
    PassStatus(db, ids, |ids|, broker, i);
  }

  lemma PendingIncreasing(orders: seq<Order>)
    ensures Increasing(PendingIds(orders))
  {
    hide PendingIds;
  }

  // ---------------------------------------------------------------- filled orders and their fills

  /** Every order marked filled has its row in the fills table. */
  ghost predicate FilledHaveFills(db: Db)
  {
    forall id :: 0 <= id < |db.orders| && db.orders[id].status == Filled ==> HasFill(db.fills, id)
  }

  /** The fill of this order is lost between marking it and applying it. */
  predicate LosesFill(db: Db, id: nat, reply: Reply)
  {
    SaysFilled(reply) && reply.fault == FillFails && !HasFill(db.fills, id)
  }

  lemma FillAppliedFills(db: Db, environment: string, orderId: nat, symbol: string, side: Side, quantity: real,
                         price: real, startingCash: real)
    ensures var fills := FillApplied(db, environment, orderId, symbol, side, quantity, price, startingCash).fills;
      forall id: nat :: HasFill(fills, id) <==> HasFill(db.fills, id) || id == orderId
  {
    hide Upsert, PositionsValue, NewSnapshot;
    if !HasFill(db.fills, orderId) {
      var f := FillRow(environment, orderId, symbol, side, quantity, price);
      forall id: nat
        ensures HasFill(db.fills + [f], id) <==> HasFill(db.fills, id) || id == orderId
      {
        assert (db.fills + [f])[|db.fills|] == f;
        if HasFill(db.fills, id) {
          var i :| 0 <= i < |db.fills| && db.fills[i].orderId == id;
          assert (db.fills + [f])[i].orderId == id;
        }
      }
    }
  }

  lemma ReconciledFills(db: Db, id: nat, order: Order, reply: Reply)
    ensures forall k: nat :: (HasFill(Reconciled(db, id, order, reply).fills, k)
                              <==> HasFill(db.fills, k) || (k == id && SaysFilled(reply) && reply.fault == NoFault))
  {
    if SaysFilled(reply) && reply.fault == NoFault {
      var execution := ExecutionOf(order, reply);
      var marked := db.(orders := MarkedFilled(db.orders, id, execution));
      FillAppliedFills(marked, order.environment, id, order.symbol, order.side, execution.quantity, execution.price,
                       CurrentCash(marked.snapshots, order.environment));
      hide FillApplied, HasFill, CurrentCash, MarkedFilled;
    }
  }

  /** One order: a fill row stays behind every filled order unless this one's is lost. */
  lemma ReconciledKeepsFillsIff(db: Db, id: nat, reply: Reply)
    requires id < |db.orders| && db.orders[id].status == Submitted
    ensures FilledHaveFills(Reconciled(db, id, db.orders[id], reply))
       <==> FilledHaveFills(db) && !LosesFill(db, id, reply)
  {
    var after := Reconciled(db, id, db.orders[id], reply);
    ReconciledStatus(db, id, reply);
    ReconciledEvolves(db, id, db.orders[id], reply);
    ReconciledFills(db, id, db.orders[id], reply);
    hide Reconciled, HasFill, Evolves, SaysFilled, SaysOver;
    if FilledHaveFills(db) && !LosesFill(db, id, reply) {
      forall k | 0 <= k < |after.orders| && after.orders[k].status == Filled
        ensures HasFill(after.fills, k)
      {
        assert k == id || db.orders[k].status == Filled;
      }
    } else if FilledHaveFills(db) {
      assert after.orders[id].status == Filled && !HasFill(after.fills, id);
    } else {
      var k :| 0 <= k < |db.orders| && db.orders[k].status == Filled && !HasFill(db.fills, k);
      assert after.orders[k].status == Filled && !HasFill(after.fills, k);
    }
  }

  predicate LosesNone(db: Db, ids: seq<nat>, n: nat, broker: nat -> Reply)
    requires n <= |ids|
  {
    forall i :: 0 <= i < n ==> !LosesFill(db, ids[i], broker(ids[i]))
  }

  ghost predicate AllSubmitted(db: Db, ids: seq<nat>)
    requires Within(ids, db.orders)
  {
    forall i :: 0 <= i < |ids| ==> db.orders[ids[i]].status == Submitted
  }

  lemma LosesNoneStep(db: Db, ids: seq<nat>, n: nat, broker: nat -> Reply)
    requires 0 < n <= |ids|
    ensures LosesNone(db, ids, n, broker)
       <==> LosesNone(db, ids, n - 1, broker) && !LosesFill(db, ids[n - 1], broker(ids[n - 1]))
  {
    hide LosesFill;
  }

  /** The next order of a pass is still as it was when the pass began. */
  lemma NextIsUntouched(db: Db, ids: seq<nat>, n: nat, broker: nat -> Reply)
    requires 0 < n <= |ids| && Increasing(ids)
    requires Within(ids, db.orders)
    requires AllSubmitted(db, ids)
    ensures var id, before := ids[n - 1], PassAfter(db, ids, n - 1, broker);
      && before.orders[id].status == Submitted
      && (LosesFill(before, id, broker(id)) <==> LosesFill(db, id, broker(id)))
  {
    hide PassAfter, HasFill, SaysFilled;
    PassLeavesOthers(db, ids, n - 1, broker, ids[n - 1]);
  }

  /** A pass keeps a fill row behind every filled order exactly when it loses no fill. */
  lemma {:induction false} PassKeepsFillsIff(db: Db, ids: seq<nat>, n: nat, broker: nat -> Reply)
    requires n <= |ids| && Increasing(ids)
    requires Within(ids, db.orders)
    requires AllSubmitted(db, ids)
    requires FilledHaveFills(db)
    ensures FilledHaveFills(PassAfter(db, ids, n, broker))
       <==> LosesNone(db, ids, n, broker)
  {
    hide Reconciled, FilledHaveFills, LosesFill, Increasing, AllSubmitted, Within;
    if n > 0 {
      var id, before := ids[n - 1], PassAfter(db, ids, n - 1, broker);
      PassStep(db, ids, n, broker);
      NextIsUntouched(db, ids, n, broker);
      LosesNoneStep(db, ids, n, broker);
      PassKeepsFillsIff(db, ids, n - 1, broker);
      ReconciledKeepsFillsIff(before, id, broker(id));
    }
  }

  /** For the orders a pass handles: every filled order still has its fill row
      exactly when no fill is lost between marking and applying. */
  lemma WholePassKeepsFillsIff(db: Db, broker: nat -> Reply)
    requires FilledHaveFills(db)
    ensures FilledHaveFills(Pass(db, broker))
       <==> forall id :: 0 <= id < |db.orders| && IsPending(db.orders[id]) ==> !LosesFill(db, id, broker(id))
  {
    hide FilledHaveFills, LosesFill, PassAfter, PendingIds, Increasing;
    var ids := PendingIds(db.orders);
    PendingIncreasing(db.orders);
    PassKeepsFillsIff(db, ids, |ids|, broker);
    forall id | 0 <= id < |db.orders| && IsPending(db.orders[id])
      ensures LosesNone(db, ids, |ids|, broker) ==> !LosesFill(db, id, broker(id))
    {
      var i :| 0 <= i < |ids| && ids[i] == id;
    }
    if !LosesNone(db, ids, |ids|, broker) {
      var i :| 0 <= i < |ids| && LosesFill(db, ids[i], broker(ids[i]));
      assert IsPending(db.orders[ids[i]]);
    }
  }
}
