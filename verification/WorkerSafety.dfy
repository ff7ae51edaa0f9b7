/** Safety of the worker over every run of cycles and fill-stream passes. */
module WorkerSafety {
  import opened Basics
  import opened Tables
  import opened Reconciliation
  import opened Executor
  import opened Worker
  import opened ExactlyOnce
  import S = Strategies

  // ---------------------------------------------------------------- the invariant

  predicate KeyMatches(o: Order)
  {
    match o.origin
    case FromSignal(_, signalId) => o.key.SignalKey? && o.key.signalId == signalId
    case CloseOf(parent, trigger) => o.key == CloseKey(parent, trigger)
  }

  ghost predicate WellKeyed(orders: seq<Order>)
  {
    forall i :: 0 <= i < |orders| ==> KeyMatches(orders[i]) && orders[i].status != Rejected
  }

  predicate SameSignal(a: Key, b: Key)
  {
    a.SignalKey? && b.SignalKey? && a.signalId == b.signalId
  }

  /** At most one order per signal, and per bought order and trigger. */
  ghost predicate OneOrderEach(orders: seq<Order>)
  {
    forall i, j :: 0 <= i < j < |orders| ==> orders[i].key != orders[j].key && !SameSignal(orders[i].key, orders[j].key)
  }

  /** At most one submission to the broker per signal, and per bought order and
      trigger; each is recorded as an order. */
  ghost predicate OneSubmissionEach(w: World)
  {
    && (forall i, j :: 0 <= i < j < |w.sent| ==> w.sent[i] != w.sent[j] && !SameSignal(w.sent[i], w.sent[j]))
    && (forall i :: 0 <= i < |w.sent| ==> HasKey(w.db.orders, w.sent[i]))
  }

  /** At most one order row per signal, and per bought order and trigger. */
  ghost predicate OrdersSafe(orders: seq<Order>)
  {
    WellKeyed(orders) && OneOrderEach(orders)
  }

  ghost predicate Safe(w: World)
  {
    OrdersSafe(w.db.orders) && OneSubmissionEach(w)
  }

  // ---------------------------------------------------------------- one submission

  /** The key is new, and so is its signal if it has one. */
  ghost predicate NewKey(orders: seq<Order>, key: Key)
  {
    forall i :: 0 <= i < |orders| ==> orders[i].key != key && !SameSignal(orders[i].key, key)
  }

  function AfterSubmitting(w: World, row: Order, recorded: bool): World
  {
    World(if recorded then w.db.(orders := Inserted(w.db.orders, row)) else w.db, w.sent + [row.key])
  }

  lemma InsertKeepsOrdersSafe(orders: seq<Order>, row: Order)
    requires OrdersSafe(orders) && NewKey(orders, row.key) && KeyMatches(row) && row.status != Rejected
    ensures OrdersSafe(Inserted(orders, row))
    ensures Inserted(orders, row) == orders + [row.(symbol := Upper(row.symbol))]
  {
    assert Inserted(orders, row) == orders + [row.(symbol := Upper(row.symbol))];
  }

  /** A submission of a new key stays once each exactly when it is recorded. */
  lemma SubmissionIff(w: World, row: Order, recorded: bool)
    requires OrdersSafe(w.db.orders) && NewKey(w.db.orders, row.key) && KeyMatches(row) && row.status != Rejected
    ensures OrdersSafe(AfterSubmitting(w, row, recorded).db.orders)
    ensures OneSubmissionEach(AfterSubmitting(w, row, recorded)) <==> OneSubmissionEach(w) && recorded
  {
    InsertKeepsOrdersSafe(w.db.orders, row);
    var after := AfterSubmitting(w, row, recorded);
    hide Inserted, OrdersSafe, WellKeyed, OneOrderEach, KeyMatches;
    if OneSubmissionEach(after) {
      SubmissionBack(w, row, recorded);
    }
    if OneSubmissionEach(w) && recorded {
      forall i | 0 <= i < |w.sent|
        ensures HasKey(after.db.orders, w.sent[i]) && w.sent[i] != row.key && !SameSignal(w.sent[i], row.key)
      {
        RecordedKey(w.db.orders, w.sent[i], row);
      }
      assert after.db.orders[|w.db.orders|].key == row.key;
    }
  }

  /** What is once each after a submission was so before, and the submission is recorded. */
  lemma SubmissionBack(w: World, row: Order, recorded: bool)
    requires NewKey(w.db.orders, row.key)
    requires Inserted(w.db.orders, row) == w.db.orders + [row.(symbol := Upper(row.symbol))]
    requires OneSubmissionEach(AfterSubmitting(w, row, recorded))
    ensures OneSubmissionEach(w) && recorded
  {
    hide Inserted;
    var after := AfterSubmitting(w, row, recorded);
    assert after.sent[|w.sent|] == row.key;
    assert HasKey(after.db.orders, row.key);
    forall i | 0 <= i < |w.sent|
      ensures HasKey(w.db.orders, w.sent[i])
    {
      assert after.sent[i] == w.sent[i] != row.key;
      assert HasKey(after.db.orders, after.sent[i]);
      var k :| 0 <= k < |after.db.orders| && after.db.orders[k].key == w.sent[i];
      assert k < |w.db.orders|;
    }
    forall i, j | 0 <= i < j < |w.sent|
      ensures w.sent[i] != w.sent[j] && !SameSignal(w.sent[i], w.sent[j])
    {
      assert after.sent[i] == w.sent[i] && after.sent[j] == w.sent[j];
    }
  }

  lemma RecordedKey(orders: seq<Order>, key: Key, row: Order)
    requires HasKey(orders, key) && NewKey(orders, row.key)
    requires Inserted(orders, row) == orders + [row.(symbol := Upper(row.symbol))]
    ensures HasKey(Inserted(orders, row), key) && key != row.key && !SameSignal(key, row.key)
  {
    hide Inserted;
    var k :| 0 <= k < |orders| && orders[k].key == key;
    assert Inserted(orders, row)[k].key == key;
  }

  /** A signal without an order has no key either. */
  lemma UnusedSignalIsNew(orders: seq<Order>, key: Key)
    requires WellKeyed(orders) && key.SignalKey? && !HasOrderForSignal(orders, key.signalId)
    ensures NewKey(orders, key)
  {
    forall i | 0 <= i < |orders|
      ensures orders[i].key != key && !SameSignal(orders[i].key, key)
    {
      assert KeyMatches(orders[i]);
    }
  }

  // ---------------------------------------------------------------- the steps of a cycle

  /** The broker gets this candidate's order. */
  predicate Submits(c: Candidate, symbol: string, equity: real, settings: Settings)
  {
    c.signal.Some? && !settings.live && OrderOf(c, symbol, equity).Some? && c.approved && c.ack.Some?
  }

  /** If the candidate that is executed is submitted, its order row is inserted. */
  predicate TriedRecords(orders: seq<Order>, candidates: seq<Candidate>, symbol: string, position: Option<real>,
                         equity: real, settings: Settings)
  {
    candidates == []
    || if Passes(orders, candidates[0], position, settings)
       then Submits(candidates[0], symbol, equity, settings) ==> candidates[0].inserts
       else TriedRecords(orders, candidates[1..], symbol, position, equity, settings)
  }

  lemma {:induction false} TriedSafeIff(w: World, candidates: seq<Candidate>, symbol: string, position: Option<real>,
                                        equity: real, settings: Settings)
    requires OrdersSafe(w.db.orders)
    ensures var after := Tried(w, candidates, symbol, position, equity, settings);
      && OrdersSafe(after.db.orders)
      && (OneSubmissionEach(after) <==>
            OneSubmissionEach(w) && TriedRecords(w.db.orders, candidates, symbol, position, equity, settings))
  {
    hide OrdersSafe, OneSubmissionEach, SkipReason, Inserted, OrderOf;
    if candidates != [] {
      if Passes(w.db.orders, candidates[0], position, settings) {
        var c := candidates[0];
        if Submits(c, symbol, equity, settings) {
          PassingOrderIsNew(w.db.orders, c, symbol, position, equity, settings);
          SubmissionIff(w, OrderOf(c, symbol, equity).value, c.inserts);
        }
      } else {
        TriedSafeIff(w, candidates[1..], symbol, position, equity, settings);
      }
    }
  }

  lemma PassingOrderIsNew(orders: seq<Order>, c: Candidate, symbol: string, position: Option<real>, equity: real,
                          settings: Settings)
    requires OrdersSafe(orders) && Passes(orders, c, position, settings) && OrderOf(c, symbol, equity).Some?
    ensures var order := OrderOf(c, symbol, equity).value;
      NewKey(orders, order.key) && KeyMatches(order) && order.status == Submitted && order.symbol == symbol
      && order.origin.FromSignal? && order.execution.None?
  {
    UnusedSignalIsNew(orders, OrderOf(c, symbol, equity).value.key);
  }

  /** The close order that is due: a touched level of the newest filled buy that
      has no close order yet and whose submission the broker accepts. */
  function DueClose(orders: seq<Order>, x: Watched, price: real): Option<Key>
  {
    match LatestFilledBuy(orders, x.symbol)
    case None => None
    case Some(id) =>
      match SlTpTrigger(price, orders[id].stopLoss, orders[id].takeProfit)
      case None => None
      case Some(trigger) =>
        if HasKey(orders, CloseKey(id, trigger)) || x.closeAck.None? then None else Some(CloseKey(id, trigger))
  }

  lemma MaybeClosedIsSubmission(w: World, x: Watched, price: real, quantity: real, settings: Settings)
    ensures MaybeClosed(w, x, price, quantity, settings)
         == match DueClose(w.db.orders, x, price)
            case None => w
            case Some(key) =>
              AfterSubmitting(w, CloseOrder(x.symbol, settings.mode, quantity, price, key.parent, key.trigger,
                                            x.closeAck), x.closeInserts)
    ensures DueClose(w.db.orders, x, price).Some? ==>
      DueClose(w.db.orders, x, price).value.CloseKey? && !HasKey(w.db.orders, DueClose(w.db.orders, x, price).value)
  {
    hide Inserted, SlTpTrigger, LatestFilledBuy;
  }

  lemma MaybeClosedSafeIff(w: World, x: Watched, price: real, quantity: real, settings: Settings)
    requires OrdersSafe(w.db.orders)
    ensures var after := MaybeClosed(w, x, price, quantity, settings);
      && OrdersSafe(after.db.orders)
      && (OneSubmissionEach(after)
          <==> OneSubmissionEach(w) && (DueClose(w.db.orders, x, price).Some? ==> x.closeInserts))
  {
    hide OrdersSafe, OneSubmissionEach, Inserted, MaybeClosed, DueClose;
    MaybeClosedIsSubmission(w, x, price, quantity, settings);
    if DueClose(w.db.orders, x, price).Some? {
      var key := DueClose(w.db.orders, x, price).value;
      UnusedCloseIsNew(w.db.orders, key);
      SubmissionIff(w, CloseOrder(x.symbol, settings.mode, quantity, price, key.parent, key.trigger, x.closeAck),
                    x.closeInserts);
    }
  }

  lemma UnusedCloseIsNew(orders: seq<Order>, key: Key)
    requires key.CloseKey? && !HasKey(orders, key)
    ensures NewKey(orders, key)
  {}

  /** After the close check of one watched symbol. */
  function ClosedFor(w: World, x: Watched, settings: Settings): World
  {
    if x.price.Some? && x.position.Some? then MaybeClosed(w, x, x.price.value, x.position.value, settings) else w
  }

  /** Every submission the broker accepts for one watched symbol is recorded. */
  predicate ProcessedRecords(w: World, x: Watched, equity: real, settings: Settings)
  {
    x.price.Some? ==>
      && (x.position.Some? && DueClose(w.db.orders, x, x.price.value).Some? ==> x.closeInserts)
      && TriedRecords(ClosedFor(w, x, settings).db.orders, x.candidates, x.symbol, x.position, equity, settings)
  }

  predicate AllRecorded(w: World, watched: seq<Watched>, equity: real, settings: Settings)
  {
    watched != [] ==>
      var front := watched[..|watched| - 1];
      && AllRecorded(w, front, equity, settings)
      && ProcessedRecords(ProcessedAll(w, front, equity, settings), watched[|watched| - 1], equity, settings)
  }

  lemma ProcessedSafeIff(w: World, x: Watched, equity: real, settings: Settings)
    requires OrdersSafe(w.db.orders)
    ensures var after := Processed(w, x, equity, settings);
      && OrdersSafe(after.db.orders)
      && (OneSubmissionEach(after) <==> OneSubmissionEach(w) && ProcessedRecords(w, x, equity, settings))
  {
    hide OrdersSafe, OneSubmissionEach, Tried, MaybeClosed, TriedRecords, DueClose;
    if x.price.Some? {
      if x.position.Some? {
        MaybeClosedSafeIff(w, x, x.price.value, x.position.value, settings);
      }
      TriedSafeIff(ClosedFor(w, x, settings), x.candidates, x.symbol, x.position, equity, settings);
    }
  }

  lemma {:induction false} ProcessedAllSafeIff(w: World, watched: seq<Watched>, equity: real, settings: Settings)
    requires OrdersSafe(w.db.orders)
    ensures var after := ProcessedAll(w, watched, equity, settings);
      && OrdersSafe(after.db.orders)
      && (OneSubmissionEach(after) <==> OneSubmissionEach(w) && AllRecorded(w, watched, equity, settings))
  {
    hide OrdersSafe, OneSubmissionEach, Processed, ProcessedRecords;
    if watched != [] {
      var front, x := watched[..|watched| - 1], watched[|watched| - 1];
      ProcessedAllSafeIff(w, front, equity, settings);
      ProcessedSafeIff(ProcessedAll(w, front, equity, settings), x, equity, settings);
    }
  }

  /** Reconciling and marking to market change statuses only. */
  lemma EvolvedSafeIff(w: World, db: Db)
    requires Evolves(w.db.orders, db.orders) && |db.orders| == |w.db.orders|
    ensures OrdersSafe(w.db.orders) ==> OrdersSafe(db.orders)
    ensures OneSubmissionEach(World(db, w.sent)) <==> OneSubmissionEach(w)
  {
    forall i | 0 <= i < |db.orders|
      ensures db.orders[i].key == w.db.orders[i].key
      ensures KeyMatches(w.db.orders[i]) ==> KeyMatches(db.orders[i])
      ensures w.db.orders[i].status != Rejected ==> db.orders[i].status != Rejected
    {
      assert RowEvolves(w.db.orders[i], db.orders[i]);
    }
    hide Evolves, KeyMatches;
    forall key
      ensures HasKey(db.orders, key) <==> HasKey(w.db.orders, key)
    {
      SameKeys(w.db.orders, db.orders, key);
      SameKeys(db.orders, w.db.orders, key);
    }
  }

  lemma SameKeys(a: seq<Order>, b: seq<Order>, key: Key)
    requires |a| == |b| && forall i :: 0 <= i < |a| ==> a[i].key == b[i].key
    ensures HasKey(a, key) ==> HasKey(b, key)
  {
    if HasKey(a, key) {
      var k :| 0 <= k < |a| && a[k].key == key;
      assert b[k].key == key;
    }
  }

  lemma SettledEvolves(db: Db, cycle: Cycle, settings: Settings)
    ensures Evolves(db.orders, Settled(db, cycle, settings).orders)
    ensures |Settled(db, cycle, settings).orders| == |db.orders|
  {
    hide PassAfter, Evolves;
    var ids := PendingIds(db.orders);
    PassEvolves(db, ids, |ids|, cycle.broker);
  }

  // ---------------------------------------------------------------- whole runs

  /** A worker cycle, or a reconciliation pass started by the fill stream. */
  datatype Activity = Cycled(cycle: Cycle) | Streamed(broker: nat -> Reply)

  function Happening(w: World, a: Activity, settings: Settings): World
  {
    match a
    case Cycled(cycle) => AfterCycle(w, cycle, settings)
    case Streamed(broker) => w.(db := Pass(w.db, broker))
  }

  function History(activities: seq<Activity>, settings: Settings): World
  {
    if activities == [] then World(EMPTY, [])
    else Happening(History(activities[..|activities| - 1], settings), activities[|activities| - 1], settings)
  }

  /** Whatever the broker accepts during one activity is recorded. */
  predicate Recorded(w: World, a: Activity, settings: Settings)
  {
    a.Cycled? && !a.cycle.killSwitch && a.cycle.equity.Some? ==>
      AllRecorded(w.(db := Settled(w.db, a.cycle, settings)), a.cycle.watched, a.cycle.equity.value, settings)
  }

  /** Over the whole run every accepted submission has its order row inserted. */
  predicate RunRecords(activities: seq<Activity>, settings: Settings)
  {
    activities != [] ==>
      var front := activities[..|activities| - 1];
      RunRecords(front, settings) && Recorded(History(front, settings), activities[|activities| - 1], settings)
  }

  lemma HappeningSafeIff(w: World, a: Activity, settings: Settings)
    requires OrdersSafe(w.db.orders)
    ensures var after := Happening(w, a, settings);
      && OrdersSafe(after.db.orders)
      && (OneSubmissionEach(after) <==> OneSubmissionEach(w) && Recorded(w, a, settings))
  {
    hide OrdersSafe, OneSubmissionEach, Settled, ProcessedAll, Pass, AllRecorded;
    match a {
      case Cycled(cycle) =>
        SettledEvolves(w.db, cycle, settings);
        EvolvedSafeIff(w, Settled(w.db, cycle, settings));
        if cycle.equity.Some? {
          ProcessedAllSafeIff(w.(db := Settled(w.db, cycle, settings)), cycle.watched, cycle.equity.value, settings);
        }
      case Streamed(broker) =>
        PassKeepsLength(w.db, broker);
        EvolvedSafeIff(w, Pass(w.db, broker));
    }
  }

  /** Over every run each signal has at most one order row, and each bought order
      at most one close order per trigger, whatever inserts fail. Each also has
      at most one submission, and that one recorded, exactly when every accepted
      submission of the run was recorded. */
  lemma {:induction false} EachSubmittedOnceIff(activities: seq<Activity>, settings: Settings)
    ensures OrdersSafe(History(activities, settings).db.orders)
    ensures OneSubmissionEach(History(activities, settings)) <==> RunRecords(activities, settings)
  {
    if activities != [] {
      hide OrdersSafe, OneSubmissionEach, Happening, Recorded;
      var front, a := activities[..|activities| - 1], activities[|activities| - 1];
      EachSubmittedOnceIff(front, settings);
      HappeningSafeIff(History(front, settings), a, settings);
    }
  }

  // ---------------------------------------------------------------- inserts that never fail

  /** No insert of an order row fails. */
  ghost predicate Records(watched: seq<Watched>)
  {
    forall i :: 0 <= i < |watched| ==>
      watched[i].closeInserts && forall j :: 0 <= j < |watched[i].candidates| ==> watched[i].candidates[j].inserts
  }

  ghost predicate AlwaysRecords(activities: seq<Activity>)
  {
    forall i :: 0 <= i < |activities| && activities[i].Cycled? ==> Records(activities[i].cycle.watched)
  }

  lemma {:induction false} CandidatesRecord(orders: seq<Order>, candidates: seq<Candidate>, symbol: string,
                                            position: Option<real>, equity: real, settings: Settings)
    requires forall j :: 0 <= j < |candidates| ==> candidates[j].inserts
    ensures TriedRecords(orders, candidates, symbol, position, equity, settings)
  {
    hide Passes, Submits;
    if candidates != [] {
      CandidatesRecord(orders, candidates[1..], symbol, position, equity, settings);
    }
  }

  lemma {:induction false} WatchedRecord(w: World, watched: seq<Watched>, equity: real, settings: Settings)
    requires Records(watched)
    ensures AllRecorded(w, watched, equity, settings)
  {
    hide ProcessedAll, TriedRecords, DueClose, ClosedFor;
    if watched != [] {
      var front, x := watched[..|watched| - 1], watched[|watched| - 1];
      WatchedRecord(w, front, equity, settings);
      var before := ProcessedAll(w, front, equity, settings);
      CandidatesRecord(ClosedFor(before, x, settings).db.orders, x.candidates, x.symbol, x.position, equity, settings);
    }
  }

  /** If no insert fails, then over every run each signal has at most one order
      and one submission, and each bought order at most one close order and
      submission per trigger. */
  lemma {:induction false} EachSubmittedOnce(activities: seq<Activity>, settings: Settings)
    requires AlwaysRecords(activities)
    ensures Safe(History(activities, settings))
    ensures RunRecords(activities, settings)
  {
    hide History, OrdersSafe, OneSubmissionEach, AllRecorded, Records, Settled;
    EachSubmittedOnceIff(activities, settings);
    if activities != [] {
      var front, a := activities[..|activities| - 1], activities[|activities| - 1];
      EachSubmittedOnce(front, settings);
      if a.Cycled? && a.cycle.equity.Some? {
        WatchedRecord(History(front, settings).(db := Settled(History(front, settings).db, a.cycle, settings)),
                      a.cycle.watched, a.cycle.equity.value, settings);
      }
    }
  }

  lemma PassKeepsLength(db: Db, broker: nat -> Reply)
    ensures Evolves(db.orders, Pass(db, broker).orders) && |Pass(db, broker).orders| == |db.orders|
  {
    hide PassAfter, Evolves;
    PassEvolves(db, PendingIds(db.orders), |PendingIds(db.orders)|, broker);
  }

  // ---------------------------------------------------------------- a close order that is lost

  /** After a close was submitted, the same level touched again leads to another
      submission exactly when the first one's order row was lost. */
  lemma CloseRepeatsIff(w: World, x: Watched, price: real, quantity: real, y: Watched, later: real, settings: Settings)
    requires x.symbol == y.symbol
    requires DueClose(w.db.orders, x, price).Some? && DueClose(w.db.orders, x, price) == DueClose(w.db.orders, y, later)
    ensures DueClose(MaybeClosed(w, x, price, quantity, settings).db.orders, y, later)
         == if x.closeInserts then None else DueClose(w.db.orders, x, price)
  {
    hide SlTpTrigger, HasKey;
    MaybeClosedIsSubmission(w, x, price, quantity, settings);
    var key := DueClose(w.db.orders, x, price).value;
    if x.closeInserts {
      var row := CloseOrder(x.symbol, settings.mode, quantity, price, key.parent, key.trigger, x.closeAck);
      UnusedCloseIsNew(w.db.orders, key);
      NewRowIsAppended(w.db.orders, row);
      LatestBuyKept(w.db.orders, row.(symbol := Upper(row.symbol)), y.symbol);
    }
  }

  lemma NewRowIsAppended(orders: seq<Order>, row: Order)
    requires NewKey(orders, row.key)
    ensures Inserted(orders, row) == orders + [row.(symbol := Upper(row.symbol))]
    ensures HasKey(Inserted(orders, row), row.key)
  {
    assert Inserted(orders, row)[|orders|].key == row.key;
  }

  lemma LatestBuyKept(orders: seq<Order>, row: Order, symbol: string)
    requires row.side == Sell
    ensures LatestFilledBuy(orders + [row], symbol) == LatestFilledBuy(orders, symbol)
  {
    assert (orders + [row])[..|orders|] == orders;
  }

  const PAPER_SETTINGS := Settings("paper", false, 0.6, 1200.0)

  function Silent(): nat -> Reply { (id: nat) => Unreachable }

  function Filling(): nat -> Reply { (id: nat) => Answer("filled", None, None, "09:31", 0.0, NoFault) }

  /** A cycle that watches one symbol while the broker reports nothing. */
  function Quiet(x: Watched): Activity { Cycled(Cycle(Silent(), map[], false, Some(100000.0), [x])) }

  lemma {:induction false} SilentPass(db: Db, ids: seq<nat>, n: nat)
    requires n <= |ids| && Within(ids, db.orders)
    ensures PassAfter(db, ids, n, Silent()) == db
  {
    if n > 0 {
      SilentPass(db, ids, n - 1);
    }
  }

  lemma QuietCycle(w: World, x: Watched, settings: Settings)
    ensures var before := w.(db := Settled(w.db, Quiet(x).cycle, settings));
      && before.db.orders == w.db.orders
      && Happening(w, Quiet(x), settings) == Processed(before, x, 100000.0, settings)
  {
    hide Processed, NewSnapshot, CurrentCash, RevaluedAll, Priced, SumValuations, HasPositions;
    SilentPass(w.db, PendingIds(w.db.orders), |PendingIds(w.db.orders)|);
    var before := w.(db := Settled(w.db, Quiet(x).cycle, settings));
    assert [x][..0] == [];
    assert ProcessedAll(before, [x][..0], 100000.0, settings) == before;
  }

  /** Watching a position whose close order is due, from one cycle to the next,
      submits the same close order in both exactly when its row is lost. */
  lemma LostCloseIsSentAgainIff(w: World, x: Watched, settings: Settings)
    requires x.price.Some? && x.position.Some? && x.candidates == []
    requires DueClose(w.db.orders, x, x.price.value).Some?
    ensures var key := DueClose(w.db.orders, x, x.price.value).value;
      Happening(Happening(w, Quiet(x), settings), Quiet(x), settings).sent
      == w.sent + [key] + (if x.closeInserts then [] else [key])
  {
    var key := DueClose(w.db.orders, x, x.price.value).value;
    var once := Happening(w, Quiet(x), settings);
    hide DueClose, Settled, Happening, MaybeClosed;
    QuietCycle(w, x, settings);
    QuietCycle(once, x, settings);
    var price, quantity := x.price.value, x.position.value;
    var first, second := w.(db := Settled(w.db, Quiet(x).cycle, settings)),
        once.(db := Settled(once.db, Quiet(x).cycle, settings));
    CloseRepeatsIff(first, x, price, quantity, x, price, settings);
    MaybeClosedIsSubmission(first, x, price, quantity, settings);
    MaybeClosedIsSubmission(second, x, price, quantity, settings);
  }

  const BOUGHT := Watched("A", Some(100.0), None, None, true,
                          [Candidate(Some(SignalRow(0, "EQ_TREND_001", "A", S.BUY, 100.0, 1.0, 2.0, 2.0)), 1.0, 0.0,
                                     false, true, Some("b-1"), true)])

  const STOPPED := Watched("A", Some(99.0), Some(20.0), Some("b-2"), false, [])

  /** A whole run of the worker: it buys, the fill arrives, the price falls to the
      stop, and with its row lost the same close order is submitted twice. */
  lemma LostCloseRun()
    ensures var sent := History([Quiet(BOUGHT), Streamed(Filling()), Quiet(STOPPED), Quiet(STOPPED)],
                                PAPER_SETTINGS).sent;
      |sent| == 3 && sent[1] == sent[2] == CloseKey(0, StopLoss)
  {
    hide History, Happening, Quiet, DueClose;
    HistoryOfFour(Quiet(BOUGHT), Streamed(Filling()), Quiet(STOPPED), Quiet(STOPPED), PAPER_SETTINGS);
    var bought := Happening(World(EMPTY, []), Quiet(BOUGHT), PAPER_SETTINGS);
    var filled := Happening(bought, Streamed(Filling()), PAPER_SETTINGS);
    BuyIsPlaced();
    FillArrives(bought);
    StopIsDue(filled.db.orders);
    LostCloseIsSentAgainIff(filled, STOPPED, PAPER_SETTINGS);
  }

  lemma HistoryOfFour(a: Activity, b: Activity, c: Activity, d: Activity, settings: Settings)
    ensures History([a, b, c, d], settings)
         == Happening(Happening(Happening(Happening(World(EMPTY, []), a, settings), b, settings), c, settings), d,
                      settings)
  {
    hide Happening;
    assert [a, b, c, d][..3] == [a, b, c] && [a, b, c][..2] == [a, b] && [a, b][..1] == [a] && [a][..0] == [];
    assert History([a, b], settings) == Happening(History([a], settings), b, settings);
  }

  /** The first order row: a buy of symbol A with its stop at 99. */
  predicate FirstBuy(orders: seq<Order>, status: Status)
  {
    && |orders| == 1
    && orders[0].status == status && orders[0].symbol == Upper("A") && orders[0].side == Buy
    && orders[0].stopLoss == Some(99.0) && orders[0].brokerOrderId.Some? && orders[0].key.SignalKey?
  }

  lemma BuyIsPlaced()
    ensures var w := Happening(World(EMPTY, []), Quiet(BOUGHT), PAPER_SETTINGS);
      FirstBuy(w.db.orders, Submitted) && |w.sent| == 1
  {
    hide Settled, Happening, Upper;
    QuietCycle(World(EMPTY, []), BOUGHT, PAPER_SETTINGS);
  }

  lemma FillArrives(w: World)
    requires FirstBuy(w.db.orders, Submitted)
    ensures var after := Happening(w, Streamed(Filling()), PAPER_SETTINGS);
      FirstBuy(after.db.orders, Filled) && after.sent == w.sent
  {
    hide Reconciled, Upper;
    var db := w.db;
    assert db.orders[..0] == [];
    assert PendingIds(db.orders) == PendingIds([]) + [0] == [0];
    assert PassAfter(db, [0], 0, Filling()) == db;
    PassStep(db, [0], 1, Filling());
    assert Pass(db, Filling()) == Reconciled(db, 0, db.orders[0], Filling()(0));
    ReconciledStatus(db, 0, Filling()(0));
    ReconciledEvolves(db, 0, db.orders[0], Filling()(0));
  }

  lemma StopIsDue(orders: seq<Order>)
    requires FirstBuy(orders, Filled)
    ensures DueClose(orders, STOPPED, 99.0) == Some(CloseKey(0, StopLoss))
  {
    hide Upper;
    assert IsFilledBuy(orders[0], "A");
  }

  // ---------------------------------------------------------------- the kill switch

  /** With the kill switch on a cycle places no order and submits nothing. */
  lemma KillSwitchStopsOrders(w: World, cycle: Cycle, settings: Settings)
    requires cycle.killSwitch
    ensures AfterCycle(w, cycle, settings).sent == w.sent
    ensures |AfterCycle(w, cycle, settings).db.orders| == |w.db.orders|
    ensures Evolves(w.db.orders, AfterCycle(w, cycle, settings).db.orders)
  {
    SettledEvolves(w.db, cycle, settings);
    hide Settled, Evolves;
  }

  // ---------------------------------------------------------------- orders per symbol

  /** Strategy orders of one symbol. */
  function StrategyOrders(orders: seq<Order>, symbol: string): nat
  {
    if orders == [] then 0
    else
      var last := orders[|orders| - 1];
      StrategyOrders(orders[..|orders| - 1], symbol) + if last.origin.FromSignal? && last.symbol == symbol then 1 else 0
  }

  function Watches(watched: seq<Watched>, symbol: string): nat
  {
    if watched == [] then 0
    else Watches(watched[..|watched| - 1], symbol) + if Upper(watched[|watched| - 1].symbol) == symbol then 1 else 0
  }

  lemma StrategyOrdersInserted(orders: seq<Order>, row: Order, symbol: string)
    ensures StrategyOrders(orders, symbol) <= StrategyOrders(Inserted(orders, row), symbol)
         <= StrategyOrders(orders, symbol) + if row.origin.FromSignal? && Upper(row.symbol) == symbol then 1 else 0
  {
    var r := row.(symbol := Upper(row.symbol));
    assert (orders + [r])[..|orders|] == orders;
  }

  lemma {:induction false} StrategyOrdersEvolve(a: seq<Order>, b: seq<Order>, symbol: string)
    requires Evolves(a, b) && |a| == |b|
    ensures StrategyOrders(a, symbol) == StrategyOrders(b, symbol)
  {
    if a != [] {
      assert RowEvolves(a[|a| - 1], b[|b| - 1]);
      StrategyOrdersEvolve(a[..|a| - 1], b[..|b| - 1], symbol);
    }
  }

  lemma {:induction false} TriedPlacesAtMostOne(w: World, candidates: seq<Candidate>, x: Watched, equity: real,
                                                settings: Settings, symbol: string)
    ensures StrategyOrders(Tried(w, candidates, x.symbol, x.position, equity, settings).db.orders, symbol)
         <= StrategyOrders(w.db.orders, symbol) + if Upper(x.symbol) == symbol then 1 else 0
  {
    hide Inserted, StrategyOrders, SkipReason;
    if candidates != [] {
      var c := candidates[0];
      if Passes(w.db.orders, c, x.position, settings) {
        if OrderOf(c, x.symbol, equity).Some? {
          StrategyOrdersInserted(w.db.orders, OrderOf(c, x.symbol, equity).value, symbol);
        }
      } else {
        TriedPlacesAtMostOne(w, candidates[1..], x, equity, settings, symbol);
      }
    }
  }

  lemma MaybeClosedPlacesNone(w: World, x: Watched, price: real, quantity: real, settings: Settings, symbol: string)
    ensures StrategyOrders(MaybeClosed(w, x, price, quantity, settings).db.orders, symbol)
      == StrategyOrders(w.db.orders, symbol)
  {
    hide Inserted, StrategyOrders, SlTpTrigger;
    forall id, trigger
      ensures StrategyOrders(Inserted(w.db.orders, CloseOrder(x.symbol, settings.mode, quantity, price, id, trigger,
                                                              x.closeAck)), symbol)
           == StrategyOrders(w.db.orders, symbol)
    {
      StrategyOrdersInserted(w.db.orders, CloseOrder(x.symbol, settings.mode, quantity, price, id, trigger,
                                                     x.closeAck), symbol);
    }
  }

  /** A cycle places at most one strategy order for each time it watches a
      symbol, so at most one when the watched symbols are distinct. */
  lemma {:induction false} ProcessedAllPlacesAtMost(w: World, watched: seq<Watched>, equity: real, settings: Settings,
                                                    symbol: string)
    ensures StrategyOrders(ProcessedAll(w, watched, equity, settings).db.orders, symbol)
         <= StrategyOrders(w.db.orders, symbol) + Watches(watched, symbol)
  {
    hide Tried, MaybeClosed, StrategyOrders;
    if watched != [] {
      var front, x := watched[..|watched| - 1], watched[|watched| - 1];
      var before := ProcessedAll(w, front, equity, settings);
      ProcessedAllPlacesAtMost(w, front, equity, settings, symbol);
      if x.price.Some? {
        var closed := if x.position.Some? then MaybeClosed(before, x, x.price.value, x.position.value, settings)
                      else before;
        if x.position.Some? {
          MaybeClosedPlacesNone(before, x, x.price.value, x.position.value, settings, symbol);
        }
        TriedPlacesAtMostOne(closed, x.candidates, x, equity, settings, symbol);
      }
    }
  }

  lemma CyclePlacesAtMostOnePerSymbol(w: World, cycle: Cycle, settings: Settings, symbol: string)
    ensures StrategyOrders(AfterCycle(w, cycle, settings).db.orders, symbol)
         <= StrategyOrders(w.db.orders, symbol)
            + if cycle.killSwitch || cycle.equity.None? then 0 else Watches(cycle.watched, symbol)
  {
    SettledEvolves(w.db, cycle, settings);
    StrategyOrdersEvolve(w.db.orders, Settled(w.db, cycle, settings).orders, symbol);
    hide Settled, StrategyOrders, Watches, ProcessedAll;
    if cycle.equity.Some? {
      ProcessedAllPlacesAtMost(w.(db := Settled(w.db, cycle, settings)), cycle.watched, cycle.equity.value, settings,
                               symbol);
    }
  }

  // ---------------------------------------------------------------- what is submitted

  /** A strategy order is fresh, buys only where the broker reports no position,
      and sells only where it reports one; a cycle adds at most this one order. */
  lemma {:induction false} StrategyOrderRespectsPosition(w: World, candidates: seq<Candidate>, symbol: string,
                                                         position: Option<real>, equity: real, settings: Settings)
    ensures var orders := Tried(w, candidates, symbol, position, equity, settings).db.orders;
      && w.db.orders <= orders
      && |orders| <= |w.db.orders| + 1
      && (|orders| > |w.db.orders| ==>
            var o := orders[|w.db.orders|];
            && o.symbol == Upper(symbol) && o.status == Submitted
            && (o.side == Buy <==> position.None?)
            && exists i :: 0 <= i < |candidates| && candidates[i].signal.Some?
                 && o.origin == FromSignal(candidates[i].signal.value.strategyId, candidates[i].signal.value.id)
                 && candidates[i].ageSeconds <= settings.maxAgeSeconds
                 && settings.minConfidence <= candidates[i].confidence)
  {
    if candidates != [] && !Passes(w.db.orders, candidates[0], position, settings) {
      hide Passes, OrderOf;
      StrategyOrderRespectsPosition(w, candidates[1..], symbol, position, equity, settings);
      var orders := Tried(w, candidates[1..], symbol, position, equity, settings).db.orders;
      if |orders| > |w.db.orders| {
        var o := orders[|w.db.orders|];
        var i :| 0 <= i < |candidates| - 1 && candidates[1..][i].signal.Some?
                 && o.origin == FromSignal(candidates[1..][i].signal.value.strategyId,
                                           candidates[1..][i].signal.value.id)
                 && candidates[1..][i].ageSeconds <= settings.maxAgeSeconds
                 && settings.minConfidence <= candidates[1..][i].confidence;
        assert candidates[1..][i] == candidates[i + 1];
      }
    }
  }

  /** The order that trying the candidates places is made from the first one that
      passes: approved, acknowledged, at its close, for its share of equity. */
  lemma {:induction false} StrategyOrderCommits(w: World, candidates: seq<Candidate>, symbol: string,
                                                position: Option<real>, equity: real, settings: Settings)
    returns (i: nat)
    requires |Tried(w, candidates, symbol, position, equity, settings).db.orders| > |w.db.orders|
    ensures i < |candidates| && Passes(w.db.orders, candidates[i], position, settings)
    ensures forall j :: 0 <= j < i ==> !Passes(w.db.orders, candidates[j], position, settings)
    ensures !settings.live && candidates[i].approved && !candidates[i].vetoed && candidates[i].inserts
    ensures var after := Tried(w, candidates, symbol, position, equity, settings);
      var o, signal := after.db.orders[|w.db.orders|], candidates[i].signal.value;
      && o.origin == FromSignal(signal.strategyId, signal.id)
      && o.estimatedPrice == signal.close
      && o.quantity * o.estimatedPrice == equity * (signal.maxPositionPct / 100.0)
      && o.stopLoss.Some? && 100.0 * Abs(o.estimatedPrice - o.stopLoss.value) == Abs(signal.stopLossPct * signal.close)
      && (o.side == Buy <==> signal.direction == S.BUY)
      && o.brokerOrderId.Some? && o.brokerOrderId == candidates[i].ack
      && after.sent == w.sent + [o.key]
  {
    hide OrderOf, Passes;
    if Passes(w.db.orders, candidates[0], position, settings) {
      i := 0;
      var c := candidates[0];
      PassesHasSignal(w.db.orders, c, position, settings);
      OrderCommits(c, symbol, equity);
    } else {
      var rest := StrategyOrderCommits(w, candidates[1..], symbol, position, equity, settings);
      i := rest + 1;
      assert forall j :: 1 <= j <= |candidates| - 1 ==> candidates[j] == candidates[1..][j - 1];
    }
  }

  lemma PassesHasSignal(orders: seq<Order>, c: Candidate, position: Option<real>, settings: Settings)
    requires Passes(orders, c, position, settings)
    ensures c.signal.Some? && !c.vetoed
  {}

  lemma OrderCommits(c: Candidate, symbol: string, equity: real)
    requires c.signal.Some?
    ensures OrderOf(c, symbol, equity).Some? ==>
      var o, signal := OrderOf(c, symbol, equity).value, c.signal.value;
      && o.origin == FromSignal(signal.strategyId, signal.id)
      && o.estimatedPrice == signal.close
      && o.quantity * o.estimatedPrice == equity * (signal.maxPositionPct / 100.0)
      && o.stopLoss.Some? && 100.0 * Abs(o.estimatedPrice - o.stopLoss.value) == Abs(signal.stopLossPct * signal.close)
      && (o.side == Buy <==> signal.direction == S.BUY)
      && o.brokerOrderId == c.ack
  {
    if OrderOf(c, symbol, equity).Some? {
      DivideTimes(equity * (c.signal.value.maxPositionPct / 100.0), c.signal.value.close);
    }
  }

  /** A close order is placed only for the newest filled buy of the symbol, when
      the price is at or beyond the level that names it, the stop taking precedence. */
  lemma CloseOrderIsTriggered(w: World, x: Watched, price: real, quantity: real, settings: Settings)
    ensures var orders := MaybeClosed(w, x, price, quantity, settings).db.orders;
      orders != w.db.orders ==>
        && |orders| == |w.db.orders| + 1 && w.db.orders <= orders
        && var o := orders[|w.db.orders|];
           && o.origin.CloseOf? && o.side == Sell && o.quantity == quantity && o.symbol == Upper(x.symbol)
           && o.status == Submitted && o.execution.None? && o.estimatedPrice == price && o.environment == settings.mode
           && o.brokerOrderId.Some? && o.brokerOrderId == x.closeAck
           && o.key == CloseKey(o.origin.parent, o.origin.trigger)
           && LatestFilledBuy(w.db.orders, x.symbol) == Some(o.origin.parent)
           && var buy := w.db.orders[o.origin.parent];
              match o.origin.trigger
              case StopLoss => buy.stopLoss.Some? && price <= buy.stopLoss.value
              case TakeProfit => buy.takeProfit.Some? && price >= buy.takeProfit.value
                                 && (buy.stopLoss.Some? && buy.stopLoss.value != 0.0 ==> price > buy.stopLoss.value)
  {}

  // ---------------------------------------------------------------- the ledger under the worker

  ghost predicate HonestBroker(orders: seq<Order>, broker: nat -> Reply)
  {
    forall id :: 0 <= id < |orders| ==> Honest(orders[id], broker(id))
  }

  /** The columns a reply falls back on do not change. */
  lemma HonestLater(a: seq<Order>, b: seq<Order>, broker: nat -> Reply, id: nat)
    requires Evolves(a, b) && HonestBroker(a, broker) && id < |a|
    ensures Honest(b[id], broker(id))
  {
    assert RowEvolves(a[id], b[id]);
    assert Honest(a[id], broker(id));
  }

  lemma {:induction false} PassKeepsSound(db: Db, ids: seq<nat>, n: nat, broker: nat -> Reply)
    requires n <= |ids|
    requires Within(ids, db.orders)
    requires Sound(db) && HonestBroker(db.orders, broker)
    ensures Sound(PassAfter(db, ids, n, broker))
  {
    hide Sound, Reconciled, Evolves, HonestBroker, Honest, Within;
    if n > 0 {
      var id, before := ids[n - 1], PassAfter(db, ids, n - 1, broker);
      PassStep(db, ids, n, broker);
      PassKeepsSound(db, ids, n - 1, broker);
      PassEvolves(db, ids, n - 1, broker);
      HonestLater(db.orders, before.orders, broker, id);
      ReconciledKeepsSound(before, id, broker(id));
    }
  }

  lemma PlacedKeepsSound(w: World, row: Order)
    requires Sound(w.db) && row.execution.None? && row.status == Submitted
    ensures Sound(w.db.(orders := Inserted(w.db.orders, row)))
  {
    InsertKeepsSound(w.db, row);
  }

  lemma {:induction false} TriedKeepsSound(w: World, candidates: seq<Candidate>, symbol: string,
                                           position: Option<real>, equity: real, settings: Settings)
    requires Sound(w.db)
    ensures Sound(Tried(w, candidates, symbol, position, equity, settings).db)
  {
    hide Sound, SkipReason, Inserted;
    if candidates != [] {
      var c := candidates[0];
      if Passes(w.db.orders, c, position, settings) {
        if OrderOf(c, symbol, equity).Some? {
          PlacedKeepsSound(w, OrderOf(c, symbol, equity).value);
        }
      } else {
        TriedKeepsSound(w, candidates[1..], symbol, position, equity, settings);
      }
    }
  }

  lemma {:induction false} ProcessedAllKeepsSound(w: World, watched: seq<Watched>, equity: real, settings: Settings)
    requires Sound(w.db)
    ensures Sound(ProcessedAll(w, watched, equity, settings).db)
  {
    hide Sound, Tried, Inserted, SlTpTrigger;
    if watched != [] {
      var front, x := watched[..|watched| - 1], watched[|watched| - 1];
      var before := ProcessedAll(w, front, equity, settings);
      ProcessedAllKeepsSound(w, front, equity, settings);
      if x.price.Some? {
        forall id, trigger, price, quantity
          ensures Sound(before.db.(orders := Inserted(before.db.orders,
                                                      CloseOrder(x.symbol, settings.mode, quantity, price, id, trigger,
                                                          x.closeAck))))
        {
          PlacedKeepsSound(before, CloseOrder(x.symbol, settings.mode, quantity, price, id, trigger, x.closeAck));
        }
        var closed := if x.position.Some? then MaybeClosed(before, x, x.price.value, x.position.value, settings)
                      else before;
        TriedKeepsSound(closed, x.candidates, x.symbol, x.position, equity, settings);
      }
    }
  }

  /** The brokers of all activities report no negative quantity. */
  ghost predicate AlwaysHonest(activities: seq<Activity>, settings: Settings)
  {
    activities != [] ==>
      var front, a := activities[..|activities| - 1], activities[|activities| - 1];
      && AlwaysHonest(front, settings)
      && HonestBroker(History(front, settings).db.orders,
                      match a { case Cycled(cycle) => cycle.broker case Streamed(broker) => broker })
  }

  /** Over every run of cycles and stream passes, failing inserts included, the
      ledger stays exact: books, fills, keys and stored drawdowns. */
  lemma {:induction false} WorkerKeepsLedger(activities: seq<Activity>, settings: Settings)
    requires AlwaysHonest(activities, settings)
    ensures Sound(History(activities, settings).db)
  {
    if activities == [] {
      EmptyIsSound();
    } else {
      hide Sound, HonestBroker, PassAfter, MarkedToMarket, ProcessedAll;
      var front, a := activities[..|activities| - 1], activities[|activities| - 1];
      var w := History(front, settings);
      var ids := PendingIds(w.db.orders);
      WorkerKeepsLedger(front, settings);
      match a {
        case Cycled(cycle) =>
          PassKeepsSound(w.db, ids, |ids|, cycle.broker);
          MarkToMarketKeepsSound(Pass(w.db, cycle.broker), PAPER, cycle.prices);
          if cycle.equity.Some? {
            ProcessedAllKeepsSound(w.(db := Settled(w.db, cycle, settings)), cycle.watched, cycle.equity.value,
                                   settings);
          }
        case Streamed(broker) =>
          PassKeepsSound(w.db, ids, |ids|, broker);
      }
    }
  }
}
