/** The signals table, and what it makes of the guard against executing a signal twice. */
module SignalLog {
  import opened Basics
  import opened Tables
  import opened Executor
  import opened Worker
  import WorkerSafety
  import S = Strategies

  /** A stored signal; its id is the position of its row, and a batch shares its
      creation time. */
  datatype Entry = Entry(createdAt: int, signal: S.Signal)

  function EntryOf(s: S.Signal, now: int): Entry
  {
    Entry(now, s.(symbol := Upper(s.symbol), timeframe := Upper(s.timeframe)))
  }

  function Appended(log: seq<Entry>, batch: seq<S.Signal>, now: int): (r: seq<Entry>)
    ensures |r| == |log| + |batch|
    ensures forall i :: 0 <= i < |log| ==> r[i] == log[i]
    ensures forall j :: 0 <= j < |batch| ==> r[|log| + j] == EntryOf(batch[j], now)
  {
    log + seq(|batch|, j requires 0 <= j < |batch| => EntryOf(batch[j], now))
  }

  /** What one strategy asks for on one chart. */
  datatype Chart = Chart(symbol: string, timeframe: string, strategyId: string)
  {
    predicate Has(s: S.Signal)
    {
      s.symbol == Upper(symbol) && s.timeframe == Upper(timeframe) && s.strategyId == strategyId
    }
  }

  /** `ORDER BY time DESC, created_at DESC`. */
  predicate NotNewer(a: Entry, b: Entry)
  {
    a.signal.time < b.signal.time || (a.signal.time == b.signal.time && a.createdAt <= b.createdAt)
  }

  ghost predicate IsLatest(log: seq<Entry>, chart: Chart, id: nat)
  {
    && id < |log| && chart.Has(log[id].signal)
    && forall k :: 0 <= k < |log| && chart.Has(log[k].signal) ==> NotNewer(log[k], log[id])
  }

  class SignalTable {
    var rows: seq<Entry>

    constructor ()
      ensures rows == []
    {
      rows := [];
    }

    /** `insert_signals`: every signal becomes a new row, whether or not its bar has one. */
    method InsertSignals(batch: seq<S.Signal>, now: int) returns (inserted: nat)
      modifies this
      ensures rows == Appended(old(rows), batch, now) && inserted == |batch|
    {
      ghost var before := rows;
      for j := 0 to |batch|
        invariant rows == Appended(before, batch[..j], now)
      {
        rows := rows + [EntryOf(batch[j], now)];
      }
      assert batch[..|batch|] == batch;
      inserted := |batch|;
    }

    /** `latest_signals` with a limit of one. */
    method LatestSignal(chart: Chart) returns (r: Option<nat>)
      ensures r.Some? ==> IsLatest(rows, chart, r.value)
      ensures r.None? ==> forall k :: 0 <= k < |rows| ==> !chart.Has(rows[k].signal)
    {
      r := None;
      for k := 0 to |rows|
        invariant r.Some? ==> IsLatest(rows[..k], chart, r.value)
        invariant r.None? ==> forall i :: 0 <= i < k ==> !chart.Has(rows[i].signal)
      {
        if chart.Has(rows[k].signal) && (r.None? || NotNewer(rows[r.value], rows[k])) {
          r := Some(k);
        }
      }
    }
  }

  // ---------------------------------------------------------------- which row is offered

  /** Everything in the table was written before. */
  ghost predicate Past(log: seq<Entry>, now: int)
  {
    forall i :: 0 <= i < |log| ==> log[i].createdAt < now
  }

  /** Row `k` lies on a later bar than anything the batch has for this chart. */
  ghost predicate Outdates(e: Entry, batch: seq<S.Signal>, chart: Chart)
  {
    chart.Has(e.signal)
    && forall j :: 0 <= j < |batch| && chart.Has(EntryOf(batch[j], 0).signal) ==> batch[j].time < e.signal.time
  }

  /** After a batch is stored, the signal offered is one from an earlier cycle
      exactly when an earlier row lies on a later bar than all of the batch. */
  lemma OldRowOfferedIff(log: seq<Entry>, batch: seq<S.Signal>, now: int, chart: Chart, id: nat)
    requires Past(log, now) && IsLatest(Appended(log, batch, now), chart, id)
    ensures id < |log| <==> exists k :: 0 <= k < |log| && Outdates(log[k], batch, chart)
  {
    var after := Appended(log, batch, now);
    if id < |log| {
      forall j | 0 <= j < |batch| && chart.Has(EntryOf(batch[j], 0).signal)
        ensures batch[j].time < log[id].signal.time
      {
        assert NotNewer(after[|log| + j], after[id]);
      }
      assert Outdates(log[id], batch, chart);
    } else {
      assert after[id] == EntryOf(batch[id - |log|], now);
      forall k | 0 <= k < |log|
        ensures !Outdates(log[k], batch, chart)
      {
        assert chart.Has(log[k].signal) ==> NotNewer(after[k], after[id]);
      }
    }
  }

  // ---------------------------------------------------------------- what the guard then does

  /** Every signal an order was made from is among the first `n`. */
  ghost predicate NamesOnly(orders: seq<Order>, n: nat)
  {
    forall i :: 0 <= i < |orders| && orders[i].origin.FromSignal? ==> orders[i].origin.signalId < n
  }

  function RowOf(log: seq<Entry>, id: nat): SignalRow
    requires id < |log|
  {
    var s := log[id].signal;
    SignalRow(id, s.strategyId, s.symbol, s.direction, s.values.close, s.stopLossPct, s.takeProfitPct, s.maxPositionPct)
  }

  /** All checks of the cycle except the guard per signal. */
  predicate PassesUnguarded(c: Candidate, position: Option<real>, settings: Settings)
  {
    && c.signal.Some?
    && c.signal.value.direction != S.HOLD
    && c.confidence >= settings.minConfidence
    && SkipReason(c.signal.value.direction, c.ageSeconds, position, settings.maxAgeSeconds).None?
    && !c.vetoed
  }

  /** A candidate read after its batch was stored is never stopped for having an
      order, as long as the batch reaches the newest bar already in the table. */
  lemma GuardIsIdle(log: seq<Entry>, batch: seq<S.Signal>, now: int, chart: Chart, id: nat, orders: seq<Order>,
                    c: Candidate, position: Option<real>, settings: Settings)
    requires Past(log, now) && IsLatest(Appended(log, batch, now), chart, id)
    requires forall k :: 0 <= k < |log| ==> !Outdates(log[k], batch, chart)
    requires NamesOnly(orders, |log|)
    requires c.signal == Some(RowOf(Appended(log, batch, now), id))
    ensures Passes(orders, c, position, settings) <==> PassesUnguarded(c, position, settings)
  {
    hide Outdates, IsLatest, Past, SkipReason;
    OldRowOfferedIff(log, batch, now, chart, id);
  }

  /** So a bar is acted on again exactly when everything else lets it: of two
      rows for one bar both are submitted when the position report, the age,
      the confidence and the review allow the second as they did the first. */
  lemma BarSubmittedAgainIff(w: World, first: Candidate, again: Candidate, symbol: string, position: Option<real>,
                             later: Option<real>, equity: real, moved: real, settings: Settings)
    requires Passes(w.db.orders, first, position, settings) && NamesOnly(w.db.orders, first.signal.value.id)
    requires WorkerSafety.Submits(first, symbol, equity, settings)
      && WorkerSafety.Submits(again, symbol, moved, settings)
    requires first.signal.value.id < again.signal.value.id
    ensures var once := Tried(w, [first], symbol, position, equity, settings);
      Tried(once, [again], symbol, later, moved, settings).sent
      == w.sent + [OrderOf(first, symbol, equity).value.key]
         + (if PassesUnguarded(again, later, settings) then [OrderOf(again, symbol, moved).value.key] else [])
  {
    hide SkipReason;
    var once := Tried(w, [first], symbol, position, equity, settings);
    assert NamesOnly(once.db.orders, again.signal.value.id);
    hide OrderOf;
  }

  /** While the broker does not report the position yet, a second buy of the same
      bar passes whenever its signal is recent enough. */
  lemma SecondBuyPassesIff(c: Candidate, position: Option<real>, settings: Settings)
    requires c.signal.Some? && c.signal.value.direction == S.BUY && c.confidence >= settings.minConfidence && !c.vetoed
    ensures PassesUnguarded(c, position, settings) <==> position.None? && c.ageSeconds <= settings.maxAgeSeconds
  {}
}
