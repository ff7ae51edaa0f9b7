/** The trading cycle of rac/worker/loop.py: what it submits, and how often. */
module Worker {
  import opened Basics
  import opened Tables
  import opened Reconciliation
  import opened Store
  import opened Executor
  import S = Strategies

  // ---------------------------------------------------------------- inputs of a cycle

  /** What one strategy meets: its latest signal, the checks on it, the broker's
      acknowledgement of a submission (`None` when submitting raises), and
      whether the order row can then be inserted. */
  datatype Candidate = Candidate(
    signal: Option<SignalRow>,
    confidence: real,
    ageSeconds: real,
    vetoed: bool,
    approved: bool,
    ack: Option<string>,
    inserts: bool)

  /** One watched symbol: its latest close (`None` without bars), the quantity
      held at the broker, and what closing it would meet. */
  datatype Watched = Watched(
    symbol: string,
    price: Option<real>,
    position: Option<real>,
    closeAck: Option<string>,
    closeInserts: bool,
    candidates: seq<Candidate>)

  datatype Settings = Settings(mode: string, live: bool, minConfidence: real, maxAgeSeconds: real)

  datatype Cycle = Cycle(
    broker: nat -> Reply,
    prices: map<string, real>,
    killSwitch: bool,
    equity: Option<real>,
    watched: seq<Watched>)

  /** The tables, and the idempotency keys the broker has accepted, in order. */
  datatype World = World(db: Db, sent: seq<Key>)

  // ---------------------------------------------------------------- pure checks

  datatype Skip = Stale | AlreadyInPosition | NoPositionToSell

  function SkipReason(direction: S.Direction, ageSeconds: real, position: Option<real>,
                      maxAgeSeconds: real): Option<Skip>
  {
    if ageSeconds > maxAgeSeconds then Some(Stale)
    else if direction == S.BUY && position.Some? then Some(AlreadyInPosition)
    else if direction == S.SELL && position.None? then Some(NoPositionToSell)
    else None
  }

  /** A level that is absent or zero does not trigger; the stop goes first. */
  function SlTpTrigger(price: real, stopLoss: Option<real>, takeProfit: Option<real>): Option<Trigger>
  {
    if stopLoss.Some? && stopLoss.value != 0.0 && price <= stopLoss.value then Some(StopLoss)
    else if takeProfit.Some? && takeProfit.value != 0.0 && price >= takeProfit.value then Some(TakeProfit)
    else None
  }

  /** Every check before the executor lets this candidate through. */
  predicate Passes(orders: seq<Order>, c: Candidate, position: Option<real>, settings: Settings)
  {
    && c.signal.Some?
    && c.signal.value.direction != S.HOLD
    && c.confidence >= settings.minConfidence
    && SkipReason(c.signal.value.direction, c.ageSeconds, position, settings.maxAgeSeconds).None?
    && !HasOrderForSignal(orders, c.signal.value.id)
    && !c.vetoed
  }

  // ---------------------------------------------------------------- steps

  /** The order a candidate would submit; its symbol is the one being processed. */
  function OrderOf(c: Candidate, symbol: string, equity: real): Option<Order>
    requires c.signal.Some?
  {
    IntentOf(c.signal.value.(symbol := symbol), equity, "market", Submitted, c.ack)
  }

  /** `execute_signal` with the broker: submit, then record. */
  function ExecutedAtBroker(w: World, c: Candidate, symbol: string, equity: real, settings: Settings): World
    requires c.signal.Some?
  {
    var order := OrderOf(c, symbol, equity);
    if settings.live || order.None? || !c.approved || c.ack.None? then w
    else
      World(if c.inserts then w.db.(orders := Inserted(w.db.orders, order.value)) else w.db, w.sent + [order.value.key])
  }

  /** The first candidate that passes is executed and ends the search. */
  function Tried(w: World, candidates: seq<Candidate>, symbol: string, position: Option<real>, equity: real,
                 settings: Settings): World
  {
    if candidates == [] then w
    else if Passes(w.db.orders, candidates[0], position, settings) then
      ExecutedAtBroker(w, candidates[0], symbol, equity, settings)
    else Tried(w, candidates[1..], symbol, position, equity, settings)
  }

  function CloseOrder(symbol: string, environment: string, quantity: real, price: real, parent: nat, trigger: Trigger,
                      ack: Option<string>): Order
  {
    Order(environment, Submitted, symbol, Sell, quantity, price, None, None, CloseOf(parent, trigger),
          CloseKey(parent, trigger), ack, None)
  }

  /** `_maybe_close_position`: a stop or target of the newest filled buy. */
  function MaybeClosed(w: World, x: Watched, price: real, quantity: real, settings: Settings): World
  {
    match LatestFilledBuy(w.db.orders, x.symbol)
    case None => w
    case Some(id) =>
      match SlTpTrigger(price, w.db.orders[id].stopLoss, w.db.orders[id].takeProfit)
      case None => w
      case Some(trigger) =>
        if HasKey(w.db.orders, CloseKey(id, trigger)) || x.closeAck.None? then w
        else
          World(if x.closeInserts
                then w.db.(orders := Inserted(w.db.orders,
                                              CloseOrder(x.symbol, settings.mode, quantity, price, id, trigger,
                                                         x.closeAck)))
                else w.db,
                w.sent + [CloseKey(id, trigger)])
  }

  function Processed(w: World, x: Watched, equity: real, settings: Settings): World
  {
    if x.price.None? then w
    else
      var w' := if x.position.Some? then MaybeClosed(w, x, x.price.value, x.position.value, settings) else w;
      Tried(w', x.candidates, x.symbol, x.position, equity, settings)
  }

  function ProcessedAll(w: World, watched: seq<Watched>, equity: real, settings: Settings): World
  {
    if watched == [] then w
    else Processed(ProcessedAll(w, watched[..|watched| - 1], equity, settings), watched[|watched| - 1], equity,
                   settings)
  }

  /** Reconciliation and, outside live mode, mark-to-market run first; orders
      are looked at only with the kill switch off and the account reachable. */
  function Settled(db: Db, cycle: Cycle, settings: Settings): Db
  {
    var reconciled := Pass(db, cycle.broker);
    if settings.live then reconciled else MarkedToMarket(reconciled, PAPER, cycle.prices)
  }

  function AfterCycle(w: World, cycle: Cycle, settings: Settings): World
  {
    var settled := w.(db := Settled(w.db, cycle, settings));
    if cycle.killSwitch || cycle.equity.None? then settled
    else ProcessedAll(settled, cycle.watched, cycle.equity.value, settings)
  }

  // ---------------------------------------------------------------- the worker

  class Cycler {
    const store: PaperStore
    const settings: Settings
    var sent: seq<Key>

    function Now(): World
      reads this, store
    {
      World(store.State(), sent)
    }

    constructor (store: PaperStore, settings: Settings)
      ensures this.store == store && this.settings == settings && sent == []
    {
      this.store := store;
      this.settings := settings;
      sent := [];
    }

    method ExecuteAtBroker(c: Candidate, symbol: string, equity: real)
      requires c.signal.Some?
      modifies this`sent, store`orders
      ensures Now() == ExecutedAtBroker(old(Now()), c, symbol, equity, settings)
    {
      if settings.live {
        return;
      }
      var order := OrderOf(c, symbol, equity);
      if order.None? || !c.approved || c.ack.None? {
        return;
      }
      sent := sent + [order.value.key];
      if c.inserts {
        var _ := store.InsertOrder(order.value);
      }
    }

    method MaybeClosePosition(x: Watched, price: real, quantity: real)
      modifies this`sent, store`orders
      ensures Now() == MaybeClosed(old(Now()), x, price, quantity, settings)
    {
      var latest := LatestFilledBuy(store.orders, x.symbol);
      if latest.None? {
        return;
      }
      var buy := store.orders[latest.value];
      var trigger := SlTpTrigger(price, buy.stopLoss, buy.takeProfit);
      if trigger.None? {
        return;
      }
      var key := CloseKey(latest.value, trigger.value);
      if HasKey(store.orders, key) || x.closeAck.None? {
        return;
      }
      sent := sent + [key];
      if x.closeInserts {
        var _ := store.InsertOrder(CloseOrder(x.symbol, settings.mode, quantity, price, latest.value, trigger.value,
                                              x.closeAck));
      }
    }

    method ProcessSymbol(x: Watched, equity: real)
      modifies this`sent, store`orders
      ensures Now() == Processed(old(Now()), x, equity, settings)
    {
      if x.price.None? {
        return;
      }
      if x.position.Some? {
        MaybeClosePosition(x, x.price.value, x.position.value);
      }
      ghost var w := Now();
      for i := 0 to |x.candidates|
        invariant Now() == w
        invariant Tried(w, x.candidates[i..], x.symbol, x.position, equity, settings)
               == Tried(w, x.candidates, x.symbol, x.position, equity, settings)
      {
        var c := x.candidates[i];
        assert x.candidates[i..][1..] == x.candidates[i + 1..];
        if Passes(store.orders, c, x.position, settings) {
          ExecuteAtBroker(c, x.symbol, equity);
          return;
        }
      }
    }

    method RunCycle(cycle: Cycle)
      modifies this`sent, store
      ensures Now() == AfterCycle(old(Now()), cycle, settings)
    {
      hide PassAfter, PendingIds, MarkedToMarket, Processed, Count;
      var _ := store.ReconcilePending(cycle.broker);
      if !settings.live {
        var _ := store.MarkToMarket(PAPER, cycle.prices);
      }
      if cycle.killSwitch || cycle.equity.None? {
        return;
      }
      ghost var w := Now();
      for i := 0 to |cycle.watched|
        invariant Now() == ProcessedAll(w, cycle.watched[..i], cycle.equity.value, settings)
      {
        assert cycle.watched[..i + 1][..i] == cycle.watched[..i];
        ProcessSymbol(cycle.watched[i], cycle.equity.value);
      }
      assert cycle.watched[..|cycle.watched|] == cycle.watched;
    }
  }
}
