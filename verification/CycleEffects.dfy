/** What every worker cycle does to the tables, whatever the kill switch and the
    account say. */
module CycleEffects {
  import opened Basics
  import opened Tables
  import opened Reconciliation
  import opened Worker
  import opened ExactlyOnce
  import opened Booking
  import Ledger
  import WorkerSafety
  import Executor

  // ---------------------------------------------------------------- orders only add rows

  /** `b` is `a` with more order rows. */
  ghost predicate OnlyOrdersAdded(a: Db, b: Db)
  {
    a.orders <= b.orders && b == a.(orders := b.orders)
  }

  lemma InsertOnlyAdds(db: Db, row: Order)
    ensures OnlyOrdersAdded(db, db.(orders := Inserted(db.orders, row)))
  {}

  lemma {:induction false} TriedOnlyAdds(w: World, candidates: seq<Candidate>, symbol: string, position: Option<real>,
                                         equity: real, settings: Settings)
    ensures OnlyOrdersAdded(w.db, Tried(w, candidates, symbol, position, equity, settings).db)
  {
    hide SkipReason, HasOrderForSignal, OrderOf, Inserted;
    if candidates != [] {
      if Passes(w.db.orders, candidates[0], position, settings) {
        if OrderOf(candidates[0], symbol, equity).Some? {
          InsertOnlyAdds(w.db, OrderOf(candidates[0], symbol, equity).value);
        }
      } else {
        TriedOnlyAdds(w, candidates[1..], symbol, position, equity, settings);
      }
    }
  }

  lemma MaybeClosedOnlyAdds(w: World, x: Watched, price: real, quantity: real, settings: Settings)
    ensures OnlyOrdersAdded(w.db, MaybeClosed(w, x, price, quantity, settings).db)
  {
    hide MaybeClosed, WorkerSafety.DueClose, Inserted;
    WorkerSafety.MaybeClosedIsSubmission(w, x, price, quantity, settings);
    if WorkerSafety.DueClose(w.db.orders, x, price).Some? {
      var key := WorkerSafety.DueClose(w.db.orders, x, price).value;
      InsertOnlyAdds(w.db, CloseOrder(x.symbol, settings.mode, quantity, price, key.parent, key.trigger, x.closeAck));
    }
  }

  lemma {:induction false} ProcessedAllOnlyAdds(w: World, watched: seq<Watched>, equity: real, settings: Settings)
    ensures OnlyOrdersAdded(w.db, ProcessedAll(w, watched, equity, settings).db)
  {
    hide Tried, MaybeClosed;
    if watched != [] {
      var front, x := watched[..|watched| - 1], watched[|watched| - 1];
      var before := ProcessedAll(w, front, equity, settings);
      ProcessedAllOnlyAdds(w, front, equity, settings);
      if x.price.Some? {
        var closed := WorkerSafety.ClosedFor(before, x, settings);
        if x.position.Some? {
          MaybeClosedOnlyAdds(before, x, x.price.value, x.position.value, settings);
        }
        TriedOnlyAdds(closed, x.candidates, x.symbol, x.position, equity, settings);
      }
    }
  }

  lemma AfterCycleOnlyAdds(w: World, cycle: Cycle, settings: Settings)
    ensures OnlyOrdersAdded(Settled(w.db, cycle, settings), AfterCycle(w, cycle, settings).db)
  {
    hide Settled, ProcessedAll;
    if cycle.equity.Some? {
      ProcessedAllOnlyAdds(w.(db := Settled(w.db, cycle, settings)), cycle.watched, cycle.equity.value, settings);
    }
  }

  // ---------------------------------------------------------------- reconciliation

  /** The status a reply leads a pending order to. */
  function StatusReported(reply: Reply): Status
  {
    if reply.Unreachable? || reply.fault == MarkFails then Submitted
    else if reply.status in ["filled", "partially_filled"] then Filled
    else if reply.status in ["rejected", "canceled", "expired", "done_for_day", "stopped"] then Cancelled
    else if reply.status in ["pending_new", "accepted", "accepted_for_bidding", "new", "held", "pending_cancel"]
            && reply.ageHours > 48.0 then Cancelled
    else Submitted
  }

  /** Every order that is pending when a cycle starts leaves it as the broker
      reports it, and matches the verdict it is counted under. */
  lemma CycleSettlesOrders(w: World, cycle: Cycle, settings: Settings, id: nat)
    requires id < |w.db.orders| && IsPending(w.db.orders[id])
    ensures var after := AfterCycle(w, cycle, settings).db.orders;
      && id < |after|
      && after[id].status == StatusReported(cycle.broker(id))
      && StatusMatches(after[id].status, cycle.broker(id))
  {
    hide AfterCycle, PassAfter, PendingIds, Increasing, MarkToMarketRecorded, Priced, CurrentCash;
    AfterCycleOnlyAdds(w, cycle, settings);
    var ids := PendingIds(w.db.orders);
    PendingIncreasing(w.db.orders);
    var i :| 0 <= i < |ids| && ids[i] == id;
    PassStatus(w.db, ids, |ids|, cycle.broker, i);
    MarkedKeepsOrders(Pass(w.db, cycle.broker), cycle.prices);
  }

  lemma MarkedKeepsOrders(db: Db, prices: map<string, real>)
    ensures var after := MarkedToMarket(db, Executor.PAPER, prices);
      after.orders == db.orders && after.fills == db.fills
  {
    hide RevaluedAll, NewSnapshot, Priced, CurrentCash, HasPositions;
  }

  /** Every pending order without a fill that the broker reports executed is
      booked by the cycle, in its order row and in a fill, as reported. */
  lemma CycleBooksFills(w: World, cycle: Cycle, settings: Settings, id: nat)
    requires id < |w.db.orders| && IsPending(w.db.orders[id]) && !HasFill(w.db.fills, id)
    requires Executes(cycle.broker(id))
    ensures var after := AfterCycle(w, cycle, settings).db;
      && id < |after.orders| && RowBooked(w.db.orders[id], after.orders[id], cycle.broker(id))
      && exists k :: 0 <= k < |after.fills| && FillBooked(w.db.orders[id], id, after.fills[k], cycle.broker(id))
  {
    hide AfterCycle, Pass, MarkedToMarket, RowBooked, FillBooked, HasFill;
    AfterCycleOnlyAdds(w, cycle, settings);
    PassBooks(w.db, cycle.broker, id);
    MarkedKeepsOrders(Pass(w.db, cycle.broker), cycle.prices);
  }

  /** Every pending order that the broker reports executed leaves the cycle with a fill row. */
  lemma CycleFills(w: World, cycle: Cycle, settings: Settings, id: nat)
    requires id < |w.db.orders| && IsPending(w.db.orders[id]) && Executes(cycle.broker(id))
    ensures HasFill(AfterCycle(w, cycle, settings).db.fills, id)
  {
    hide AfterCycle, PassAfter, MarkedToMarket, RowBooked, PendingIds;
    var after := AfterCycle(w, cycle, settings).db;
    if HasFill(w.db.fills, id) {
      var k :| 0 <= k < |w.db.fills| && w.db.fills[k].orderId == id;
      PassKeepsFillRows(w.db, PendingIds(w.db.orders), |PendingIds(w.db.orders)|, cycle.broker);
      MarkedKeepsOrders(Pass(w.db, cycle.broker), cycle.prices);
      AfterCycleOnlyAdds(w, cycle, settings);
      assert after.fills[k] == w.db.fills[k];
    } else {
      CycleBooksFills(w, cycle, settings, id);
    }
  }

  // ---------------------------------------------------------------- valuation

  /** The same positions, apart from their market values. */
  ghost predicate SameHoldings(a: seq<Position>, b: seq<Position>)
  {
    |a| == |b| && forall i :: 0 <= i < |a| ==> b[i] == a[i].(marketValue := b[i].marketValue)
  }

  lemma {:induction false} RevaluedAllSameHoldings(rows: seq<Position>, environment: string, valuations: seq<Valuation>)
    ensures SameHoldings(rows, RevaluedAll(rows, environment, valuations))
  {
    if valuations != [] {
      RevaluedAllSameHoldings(rows, environment, valuations[..|valuations| - 1]);
    }
  }

  lemma {:induction false} SameUnrealised(a: seq<Position>, b: seq<Position>, environment: string,
                                          prices: map<string, real>)
    requires SameHoldings(a, b) && Ledger.AllPriced(b, environment, prices)
    ensures Ledger.AllPriced(a, environment, prices)
    ensures Ledger.Unrealised(a, environment, prices) == Ledger.Unrealised(b, environment, prices)
  {
    hide Value;
    if a != [] {
      SameUnrealised(a[..|a| - 1], b[..|b| - 1], environment, prices);
    }
  }

  /** Outside live mode a cycle whose positions all have a quote ends with a paper
      snapshot worth the starting cash plus realised plus unrealised profit. */
  lemma CycleValuesPortfolio(w: World, cycle: Cycle, settings: Settings)
    requires !settings.live && Sound(w.db) && WorkerSafety.HonestBroker(w.db.orders, cycle.broker)
    requires Ledger.AllPriced(AfterCycle(w, cycle, settings).db.positions, Executor.PAPER, cycle.prices)
    ensures var after := AfterCycle(w, cycle, settings).db;
      && after.snapshots != []
      && var last := after.snapshots[|after.snapshots| - 1];
         && last.environment == Executor.PAPER
         && last.nav == STARTING_CASH + Ledger.Realised(after.fills, Executor.PAPER)
                        + Ledger.Unrealised(after.positions, Executor.PAPER, cycle.prices)
  {
    hide AfterCycle, PassAfter, RevaluedAll, Ledger.AllPriced, Ledger.Unrealised, Ledger.Realised, SameHoldings, Sound;
    AfterCycleOnlyAdds(w, cycle, settings);
    var reconciled := Pass(w.db, cycle.broker);
    WorkerSafety.PassKeepsSound(w.db, PendingIds(w.db.orders), |PendingIds(w.db.orders)|, cycle.broker);
    MarkedSameHoldings(reconciled, cycle.prices);
    SameUnrealised(reconciled.positions, MarkedToMarket(reconciled, Executor.PAPER, cycle.prices).positions,
                   Executor.PAPER, cycle.prices);
    PaperValued(reconciled, cycle.prices);
  }

  lemma MarkedSameHoldings(db: Db, prices: map<string, real>)
    ensures SameHoldings(db.positions, MarkedToMarket(db, Executor.PAPER, prices).positions)
  {
    hide RevaluedAll, NewSnapshot, Priced, CurrentCash, HasPositions;
    RevaluedAllSameHoldings(db.positions, Executor.PAPER, Priced(db.positions, Executor.PAPER, prices));
    RevaluedAllSameHoldings(db.positions, Executor.PAPER, []);
  }

  lemma PaperValued(db: Db, prices: map<string, real>)
    requires Sound(db) && Ledger.AllPriced(db.positions, Executor.PAPER, prices)
    ensures var after := MarkedToMarket(db, Executor.PAPER, prices);
      && after.snapshots != []
      && var last := after.snapshots[|after.snapshots| - 1];
         && last.environment == Executor.PAPER
         && last.nav == STARTING_CASH + Ledger.Realised(after.fills, Executor.PAPER)
                        + Ledger.Unrealised(db.positions, Executor.PAPER, prices)
  {
    assert Ledger.Agrees(db, Executor.PAPER);
    hide RevaluedAll, CurrentCash, Priced, HasPositions, Ledger.AllPriced, Ledger.Unrealised, Ledger.Realised, Sound;
    Ledger.MarkToMarketNav(db, Executor.PAPER, prices);
    MarkedKeepsOrders(db, prices);
  }

  // ---------------------------------------------------------------- which snapshots a cycle adds

  lemma {:induction false} SnapshotPerFill(db: Db, ids: seq<nat>, n: nat, broker: nat -> Reply)
    requires n <= |ids| && Within(ids, db.orders)
    ensures var after := PassAfter(db, ids, n, broker);
      |after.snapshots| - |db.snapshots| == |after.fills| - |db.fills| >= 0
  {
    hide Reconciled, Within;
    if n > 0 {
      SnapshotPerFill(db, ids, n - 1, broker);
      PassStep(db, ids, n, broker);
      var before := PassAfter(db, ids, n - 1, broker);
      AnswerAddsSnapshotPerFill(before, ids[n - 1], broker(ids[n - 1]));
    }
  }

  lemma AnswerAddsSnapshotPerFill(db: Db, id: nat, reply: Reply)
    requires id < |db.orders|
    ensures var after := Reconciled(db, id, db.orders[id], reply);
      |after.snapshots| - |db.snapshots| == |after.fills| - |db.fills| >= 0
  {
    hide Upsert, PositionsValue, CurrentCash, NewSnapshot, HasFill, SaysFilled, SaysOver;
  }

  /** A position of the paper environment that has a quote. */
  predicate SomeQuoted(rows: seq<Position>, prices: map<string, real>)
  {
    exists i :: 0 <= i < |rows| && rows[i].environment == Executor.PAPER && rows[i].symbol in prices
  }

  lemma {:induction false} PricedIffQuoted(rows: seq<Position>, prices: map<string, real>)
    ensures Priced(rows, Executor.PAPER, prices) != [] <==> SomeQuoted(rows, prices)
  {
    hide Value;
    if rows != [] {
      var front, last := rows[..|rows| - 1], rows[|rows| - 1];
      PricedIffQuoted(front, prices);
      if SomeQuoted(front, prices) {
        var i :| 0 <= i < |front| && front[i].environment == Executor.PAPER && front[i].symbol in prices;
        assert rows[i] == front[i];
      }
      if SomeQuoted(rows, prices) {
        var i :| 0 <= i < |rows| && rows[i].environment == Executor.PAPER && rows[i].symbol in prices;
        if i < |front| {
          assert front[i].environment == Executor.PAPER && front[i].symbol in prices;
        }
      }
    }
  }

  lemma SameQuoted(a: seq<Position>, b: seq<Position>, prices: map<string, real>)
    requires SameHoldings(a, b)
    ensures SomeQuoted(a, prices) <==> SomeQuoted(b, prices)
    ensures HasPositions(a, Executor.PAPER) <==> HasPositions(b, Executor.PAPER)
  {
    assert forall i :: 0 <= i < |a| ==> a[i].environment == b[i].environment && a[i].symbol == b[i].symbol;
  }

  /** A cycle stores a snapshot for each new fill, and one valuation: never in
      live mode, and otherwise unless it holds positions none of which has a quote. */
  lemma CycleSnapshots(w: World, cycle: Cycle, settings: Settings)
    ensures var after := AfterCycle(w, cycle, settings).db;
      |after.snapshots| - |w.db.snapshots|
      == |after.fills| - |w.db.fills|
         + if !settings.live && (SomeQuoted(after.positions, cycle.prices)
                                 || !HasPositions(after.positions, Executor.PAPER)) then 1 else 0
  {
    hide AfterCycle, PassAfter, HasPositions, SomeQuoted, SameHoldings, RevaluedAll, CurrentCash, NewSnapshot, Priced;
    AfterCycleOnlyAdds(w, cycle, settings);
    var ids, reconciled := PendingIds(w.db.orders), Pass(w.db, cycle.broker);
    SnapshotPerFill(w.db, ids, |ids|, cycle.broker);
    PricedIffQuoted(reconciled.positions, cycle.prices);
    MarkedSameHoldings(reconciled, cycle.prices);
    SameQuoted(reconciled.positions, MarkedToMarket(reconciled, Executor.PAPER, cycle.prices).positions, cycle.prices);
  }

  // ---------------------------------------------------------------- market values

  /** Position rows carry upper-case symbols. */
  ghost predicate UpperSymbols(rows: seq<Position>)
  {
    forall i :: 0 <= i < |rows| ==> Upper(rows[i].symbol) == rows[i].symbol
  }

  lemma UpperTwice(s: string)
    ensures Upper(Upper(s)) == Upper(s)
  {}

  lemma {:induction false} UpsertKeepsUpper(rows: seq<Position>, environment: string, symbol: string, traded: real,
                                            price: real)
    requires UpperSymbols(rows)
    ensures UpperSymbols(Upsert(rows, environment, Upper(symbol), traded, price))
  {
    hide Value, AveragePrice, Upper;
    UpperTwice(symbol);
    if rows != [] && !At(rows[0], environment, Upper(symbol)) {
      UpsertKeepsUpper(rows[1..], environment, symbol, traded, price);
    }
  }

  lemma {:induction false} PassKeepsUpper(db: Db, ids: seq<nat>, n: nat, broker: nat -> Reply)
    requires n <= |ids| && Within(ids, db.orders) && UpperSymbols(db.positions)
    ensures UpperSymbols(PassAfter(db, ids, n, broker).positions)
  {
    hide Reconciled, Within, UpperSymbols;
    if n > 0 {
      PassKeepsUpper(db, ids, n - 1, broker);
      PassStep(db, ids, n, broker);
      var before := PassAfter(db, ids, n - 1, broker);
      AnswerKeepsUpper(before, ids[n - 1], broker(ids[n - 1]));
    }
  }

  lemma AnswerKeepsUpper(db: Db, id: nat, reply: Reply)
    requires id < |db.orders| && UpperSymbols(db.positions)
    ensures UpperSymbols(Reconciled(db, id, db.orders[id], reply).positions)
  {
    hide UpperSymbols, Upsert, PositionsValue, CurrentCash, NewSnapshot, HasFill, SaysOver, Upper;
    if reply.Answer? {
      var o, e := db.orders[id], ExecutionOf(db.orders[id], reply);
      UpsertKeepsUpper(db.positions, o.environment, o.symbol, Signed(o.side, e.quantity), e.price);
    }
  }

  /** Each quoted position is worth its quantity at the quote; the others keep their value. */
  ghost predicate ValuedAt(rows: seq<Position>, after: seq<Position>, n: nat, prices: map<string, real>)
    requires n <= |rows|
  {
    && |after| == |rows|
    && forall i :: 0 <= i < |rows| ==>
         after[i] == if i < n && rows[i].environment == Executor.PAPER && rows[i].symbol in prices
                     then rows[i].(marketValue := Value(rows[i].quantity, prices[rows[i].symbol]))
                     else rows[i]
  }

  lemma {:induction false} RevaluedAtQuotes(rows: seq<Position>, n: nat, prices: map<string, real>)
    requires n <= |rows| && Ledger.UniqueRows(rows) && UpperSymbols(rows)
    ensures ValuedAt(rows, RevaluedAll(rows, Executor.PAPER, Priced(rows[..n], Executor.PAPER, prices)), n, prices)
  {
    hide Value, Upper, ValuedAt, Ledger.UniqueRows, UpperSymbols;
    if n == 0 {
      NoneValued(rows, prices);
    } else {
      RevaluedAtQuotes(rows, n - 1, prices);
      var p := rows[n - 1];
      var priced := Priced(rows[..n - 1], Executor.PAPER, prices);
      assert rows[..n][..n - 1] == rows[..n - 1];
      var before := RevaluedAll(rows, Executor.PAPER, priced);
      RevaluedStep(rows, before, n, prices);
      if p.environment == Executor.PAPER && p.symbol in prices {
        var v := Valuation(p.symbol, Value(p.quantity, prices[p.symbol]));
        assert (priced + [v])[..|priced|] == priced;
      } else {
        assert priced + [] == priced;
      }
    }
  }

  lemma NoneValued(rows: seq<Position>, prices: map<string, real>)
    ensures ValuedAt(rows, rows, 0, prices)
  {
    hide Value;
  }

  lemma RevaluedStep(rows: seq<Position>, before: seq<Position>, n: nat, prices: map<string, real>)
    requires 0 < n <= |rows| && Ledger.UniqueRows(rows) && UpperSymbols(rows)
    requires ValuedAt(rows, before, n - 1, prices)
    ensures var p := rows[n - 1];
      if p.environment == Executor.PAPER && p.symbol in prices
      then ValuedAt(rows, Revalued(before, Executor.PAPER, Valuation(p.symbol, Value(p.quantity, prices[p.symbol]))),
                    n, prices)
      else ValuedAt(rows, before, n, prices)
  {
    hide Value, Upper;
    var p := rows[n - 1];
    if p.environment == Executor.PAPER && p.symbol in prices {
      forall i | 0 <= i < |rows|
        ensures At(before[i], Executor.PAPER, Upper(p.symbol)) <==> i == n - 1
      {
        assert i < n - 1 ==> !At(rows[i], p.environment, p.symbol);
        assert n - 1 < i ==> !At(p, rows[i].environment, rows[i].symbol);
      }
    }
  }

  /** After a cycle outside live mode every quoted paper position is valued at its quote. */
  lemma CycleValuesPositions(w: World, cycle: Cycle, settings: Settings)
    requires !settings.live && Sound(w.db) && WorkerSafety.HonestBroker(w.db.orders, cycle.broker)
    requires UpperSymbols(w.db.positions)
    ensures var rows := AfterCycle(w, cycle, settings).db.positions;
      && UpperSymbols(rows)
      && forall i :: 0 <= i < |rows| && rows[i].environment == Executor.PAPER && rows[i].symbol in cycle.prices ==>
           rows[i].marketValue == Value(rows[i].quantity, cycle.prices[rows[i].symbol])
  {
    hide AfterCycle, PassAfter, Sound, Value, Upper;
    AfterCycleOnlyAdds(w, cycle, settings);
    var ids, reconciled := PendingIds(w.db.orders), Pass(w.db, cycle.broker);
    WorkerSafety.PassKeepsSound(w.db, ids, |ids|, cycle.broker);
    PassKeepsUpper(w.db, ids, |ids|, cycle.broker);
    SoundRows(reconciled);
    MarkedAtQuotes(reconciled, cycle.prices);
  }

  lemma SoundRows(db: Db)
    requires Sound(db)
    ensures Ledger.UniqueRows(db.positions)
  {}

  lemma MarkedAtQuotes(db: Db, prices: map<string, real>)
    requires Ledger.UniqueRows(db.positions) && UpperSymbols(db.positions)
    ensures ValuedAt(db.positions, MarkedToMarket(db, Executor.PAPER, prices).positions, |db.positions|, prices)
  {
    hide Value, RevaluedAll, NewSnapshot, CurrentCash, UpperSymbols, Priced;
    var rows := db.positions;
    assert rows[..|rows|] == rows;
    RevaluedAtQuotes(rows, |rows|, prices);
    PricedIffQuoted(rows, prices);
    NothingRevalued(rows);
  }

  lemma NothingRevalued(rows: seq<Position>)
    ensures RevaluedAll(rows, Executor.PAPER, []) == rows
  {}

  // ---------------------------------------------------------------- over every run

  lemma MarkedKeepsUpper(db: Db, prices: map<string, real>)
    requires UpperSymbols(db.positions)
    ensures UpperSymbols(MarkedToMarket(db, Executor.PAPER, prices).positions)
  {
    hide MarkedToMarket, Upper;
    MarkedSameHoldings(db, prices);
  }

  lemma {:induction false} HistoryKeepsUpper(activities: seq<WorkerSafety.Activity>, settings: Settings)
    ensures UpperSymbols(WorkerSafety.History(activities, settings).db.positions)
  {
    hide UpperSymbols, PassAfter, MarkedToMarket, AfterCycle;
    if activities == [] {
      NoneIsUpper();
    } else {
      var front, a := activities[..|activities| - 1], activities[|activities| - 1];
      var w := WorkerSafety.History(front, settings);
      HistoryKeepsUpper(front, settings);
      var ids := PendingIds(w.db.orders);
      match a {
        case Cycled(cycle) =>
          PassKeepsUpper(w.db, ids, |ids|, cycle.broker);
          MarkedKeepsUpper(Pass(w.db, cycle.broker), cycle.prices);
          AfterCycleOnlyAdds(w, cycle, settings);
        case Streamed(broker) =>
          PassKeepsUpper(w.db, ids, |ids|, broker);
      }
    }
  }

  lemma NoneIsUpper()
    ensures UpperSymbols([])
  {}

  /** In every run outside live mode, each cycle leaves every quoted paper position
      at its quote, and a paper snapshot worth the starting cash plus realised plus
      unrealised profit once all of them have one. */
  lemma EveryCycleValues(activities: seq<WorkerSafety.Activity>, cycle: Cycle, settings: Settings)
    requires !settings.live && WorkerSafety.AlwaysHonest(activities + [WorkerSafety.Cycled(cycle)], settings)
    ensures var after := WorkerSafety.History(activities + [WorkerSafety.Cycled(cycle)], settings).db;
      && (forall i :: 0 <= i < |after.positions| && after.positions[i].environment == Executor.PAPER
                      && after.positions[i].symbol in cycle.prices ==>
            after.positions[i].marketValue == Value(after.positions[i].quantity,
                                                    cycle.prices[after.positions[i].symbol]))
      && (Ledger.AllPriced(after.positions, Executor.PAPER, cycle.prices) ==>
            && after.snapshots != []
            && after.snapshots[|after.snapshots| - 1].environment == Executor.PAPER
            && after.snapshots[|after.snapshots| - 1].nav
               == STARTING_CASH + Ledger.Realised(after.fills, Executor.PAPER)
                  + Ledger.Unrealised(after.positions, Executor.PAPER, cycle.prices))
  {
    hide Sound, UpperSymbols, AfterCycle, WorkerSafety.HonestBroker, Value, Ledger.Realised;
    var all := activities + [WorkerSafety.Cycled(cycle)];
    assert all[..|all| - 1] == activities;
    var w := WorkerSafety.History(activities, settings);
    WorkerSafety.WorkerKeepsLedger(activities, settings);
    HistoryKeepsUpper(activities, settings);
    CycleValuesPositions(w, cycle, settings);
    if Ledger.AllPriced(AfterCycle(w, cycle, settings).db.positions, Executor.PAPER, cycle.prices) {
      CycleValuesPortfolio(w, cycle, settings);
    }
  }
}
