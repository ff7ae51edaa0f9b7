/** Accounting of the paper ledger: what cash, quantities and average prices
    say about the fills that produced them. */
module Ledger {
  import opened Basics
  import opened Tables
  import Metrics

  // ---------------------------------------------------------------- what the fills say

  predicate On(f: Fill, environment: string, symbol: string)
  {
    f.environment == environment && f.symbol == symbol
  }

  /** Quantity bought less quantity sold. */
  function NetQuantity(fills: seq<Fill>, environment: string, symbol: string): real
  {
    if fills == [] then 0.0
    else
      var last := fills[|fills| - 1];
      NetQuantity(fills[..|fills| - 1], environment, symbol)
      + (if On(last, environment, symbol) then Signed(last.side, last.quantity) else 0.0)
  }

  /** Money spent on buys less money received from sells. */
  function Outlay(fills: seq<Fill>): real
  {
    if fills == [] then 0.0
    else Outlay(fills[..|fills| - 1]) + Signed(fills[|fills| - 1].side, fills[|fills| - 1].notional)
  }

  /** The fills of one environment, in order. */
  function In(fills: seq<Fill>, environment: string): seq<Fill>
  {
    if fills == [] then []
    else
      In(fills[..|fills| - 1], environment)
      + (if fills[|fills| - 1].environment == environment then [fills[|fills| - 1]] else [])
  }

  /** The fills of one symbol since its quantity was last zero. */
  function OpenRound(fills: seq<Fill>, environment: string, symbol: string): seq<Fill>
  {
    if fills == [] then []
    else
      var front, last := fills[..|fills| - 1], fills[|fills| - 1];
      if !On(last, environment, symbol) then OpenRound(front, environment, symbol)
      else if NetQuantity(fills, environment, symbol) == 0.0 then []
      else OpenRound(front, environment, symbol) + [last]
  }

  /** Sells minus buys of every completed flat-to-flat round of an environment. */
  function Realised(fills: seq<Fill>, environment: string): real
  {
    if fills == [] then 0.0
    else
      var front, last := fills[..|fills| - 1], fills[|fills| - 1];
      Realised(front, environment)
      + (if last.environment == environment && NetQuantity(fills, environment, last.symbol) == 0.0
         then -Outlay(OpenRound(front, environment, last.symbol) + [last]) else 0.0)
  }

  // ---------------------------------------------------------------- what the positions say

  function Held(rows: seq<Position>, environment: string, symbol: string): real
  {
    if rows == [] then 0.0
    else if At(rows[0], environment, symbol) then rows[0].quantity
    else Held(rows[1..], environment, symbol)
  }

  /** Quantity times average price. */
  function CostOf(rows: seq<Position>, environment: string, symbol: string): real
  {
    if rows == [] then 0.0
    else if At(rows[0], environment, symbol) then Value(rows[0].quantity, rows[0].averagePrice)
    else CostOf(rows[1..], environment, symbol)
  }

  /** Primary key of the positions table. */
  ghost predicate UniqueRows(rows: seq<Position>)
  {
    forall i, j :: 0 <= i < j < |rows| ==> !At(rows[i], rows[j].environment, rows[j].symbol)
  }

  /** Unique index on the fills' order ids. */
  ghost predicate UniqueFills(fills: seq<Fill>)
  {
    forall i, j :: 0 <= i < j < |fills| ==> fills[i].orderId != fills[j].orderId
  }

  // ---------------------------------------------------------------- the upsert

  /** The weighted average keeps quantity times price additive, until nothing is left. */
  lemma AverageKeepsCost(quantity: real, average: real, traded: real, price: real)
    ensures Value(quantity + traded, AveragePrice(quantity, average, traded, price))
         == if quantity + traded == 0.0 then 0.0 else Value(quantity, average) + Value(traded, price)
  {
    if quantity + traded != 0.0 {
      DivideTimes(Value(quantity, average) + Value(traded, price), quantity + traded);
    }
  }

  /** The upsert moves one symbol's quantity and cost, and the environment's
      total by exactly that change of cost. */
  lemma {:induction false} UpsertEffect(rows: seq<Position>, environment: string, symbol: string, traded: real,
                                        price: real)
    ensures var r := Upsert(rows, environment, symbol, traded, price);
      && (Held(r, environment, symbol) == Held(rows, environment, symbol) + traded)
      && CostOf(r, environment, symbol)
         == (if Held(r, environment, symbol) == 0.0 then 0.0
             else CostOf(rows, environment, symbol) + Value(traded, price))
      && PositionsValue(r, environment)
         == PositionsValue(rows, environment) + CostOf(r, environment, symbol) - CostOf(rows, environment, symbol)
  {
    if rows == [] {
      if traded == 0.0 {
        assert Value(traded, price) == 0.0;
      }
    } else if At(rows[0], environment, symbol) {
      AverageKeepsCost(rows[0].quantity, rows[0].averagePrice, traded, price);
      hide Value, AveragePrice;
    } else {
      hide Value, AveragePrice;
      UpsertEffect(rows[1..], environment, symbol, traded, price);
    }
  }

  /** Every other symbol, and every other environment, is left alone. */
  lemma {:induction false} UpsertFrame(rows: seq<Position>, environment: string, symbol: string, traded: real,
                                       price: real, env: string, sym: string)
    requires env != environment || sym != symbol
    ensures var r := Upsert(rows, environment, symbol, traded, price);
      && Held(r, env, sym) == Held(rows, env, sym)
      && CostOf(r, env, sym) == CostOf(rows, env, sym)
      && (env != environment ==> PositionsValue(r, env) == PositionsValue(rows, env))
  {
    hide Value, AveragePrice;
    if rows != [] && !At(rows[0], environment, symbol) {
      UpsertFrame(rows[1..], environment, symbol, traded, price, env, sym);
    }
  }

  lemma {:induction false} UpsertKeepsKey(rows: seq<Position>, environment: string, symbol: string, traded: real,
                                          price: real)
    requires UniqueRows(rows)
    ensures var r := Upsert(rows, environment, symbol, traded, price);
      && UniqueRows(r)
      && forall i :: 0 <= i < |r| ==>
           At(r[i], environment, symbol) || exists j :: 0 <= j < |rows| && At(rows[j], r[i].environment, r[i].symbol)
  {
    hide Value, AveragePrice;
    if rows != [] && !At(rows[0], environment, symbol) {
      var tail := rows[1..];
      UpsertKeepsKey(tail, environment, symbol, traded, price);
      var r := Upsert(tail, environment, symbol, traded, price);
      forall i | 0 <= i < |r|
        ensures !At(rows[0], r[i].environment, r[i].symbol)
        ensures At(r[i], environment, symbol)
          || exists j :: 0 <= j < |rows| && At(rows[j], r[i].environment, r[i].symbol)
      {
        if !At(r[i], environment, symbol) {
          var j :| 0 <= j < |tail| && At(tail[j], r[i].environment, r[i].symbol);
          assert At(rows[j + 1], r[i].environment, r[i].symbol);
        }
      }
    }
  }

  // ---------------------------------------------------------------- the invariant

  /** One environment's books agree with its fills. */
  ghost predicate Agrees(db: Db, environment: string)
  {
    && (forall symbol :: Held(db.positions, environment, symbol) == NetQuantity(db.fills, environment, symbol))
    && (forall symbol :: CostOf(db.positions, environment, symbol) == Outlay(OpenRound(db.fills, environment, symbol)))
    && CurrentCash(db.snapshots, environment) == STARTING_CASH - Outlay(In(db.fills, environment))
    && CurrentCash(db.snapshots, environment) + PositionsValue(db.positions, environment)
       == STARTING_CASH + Realised(db.fills, environment)
  }

  lemma OutlaySnoc(fills: seq<Fill>, f: Fill)
    ensures Outlay(fills + [f]) == Outlay(fills) + Signed(f.side, f.notional)
  {
    assert (fills + [f])[..|fills|] == fills;
  }

  /** A fill whose stored quantity is the quantity traded. */
  lemma SignedNotional(side: Side, quantity: real, price: real)
    requires 0.0 <= quantity
    ensures Signed(side, Value(Abs(Signed(side, quantity)), price)) == Value(Signed(side, quantity), price)
  {}

  /** How one new fill moves the fill-side quantities. */
  lemma FillExtends(fills: seq<Fill>, f: Fill, environment: string, symbol: string)
    ensures NetQuantity(fills + [f], environment, symbol)
         == NetQuantity(fills, environment, symbol)
            + (if On(f, environment, symbol) then Signed(f.side, f.quantity) else 0.0)
    ensures OpenRound(fills + [f], environment, symbol)
         == if !On(f, environment, symbol) then OpenRound(fills, environment, symbol)
            else if NetQuantity(fills + [f], environment, symbol) == 0.0 then []
            else OpenRound(fills, environment, symbol) + [f]
    ensures In(fills + [f], environment)
         == if f.environment == environment then In(fills, environment) + [f] else In(fills, environment)
    ensures Realised(fills + [f], environment)
         == Realised(fills, environment)
            + (if f.environment == environment && NetQuantity(fills + [f], environment, f.symbol) == 0.0
               then -Outlay(OpenRound(fills, environment, f.symbol) + [f]) else 0.0)
  {
    assert (fills + [f])[..|fills|] == fills;
  }

  lemma SnapshotExtends(snapshots: seq<Snapshot>, s: Snapshot, environment: string)
    ensures CurrentCash(snapshots + [s], environment)
         == if s.environment == environment then s.cash else CurrentCash(snapshots, environment)
    ensures Navs(snapshots + [s], environment)
         == if s.environment == environment then Navs(snapshots, environment) + [s.nav]
            else Navs(snapshots, environment)
  {
    assert (snapshots + [s])[..|snapshots|] == snapshots;
  }

  /** The book value moves only when a fill brings its symbol to zero, and then
      by exactly that round's sells minus buys. */
  lemma FillMovesBookValue(db: Db, environment: string, orderId: nat, symbol: string, side: Side, quantity: real,
                           price: real)
    requires Agrees(db, environment) && !HasFill(db.fills, orderId) && 0.0 <= quantity
    ensures var cash := CurrentCash(db.snapshots, environment);
      var after := FillApplied(db, environment, orderId, symbol, side, quantity, price, cash);
      var fill := FillRow(environment, orderId, symbol, side, quantity, price);
      CurrentCash(after.snapshots, environment) + PositionsValue(after.positions, environment)
      == cash + PositionsValue(db.positions, environment)
         + if Held(after.positions, environment, Upper(symbol)) != 0.0 then 0.0
           else -Outlay(OpenRound(db.fills, environment, Upper(symbol)) + [fill])
  {
    var cash, sym := CurrentCash(db.snapshots, environment), Upper(symbol);
    var fill := FillRow(environment, orderId, symbol, side, quantity, price);
    var after := FillApplied(db, environment, orderId, symbol, side, quantity, price, cash);
    hide Value, Upsert, OpenRound, NetQuantity, Realised, In, Outlay, Held, CostOf, PositionsValue, Upper, NewSnapshot;
    hide CurrentCash, Navs, Metrics.StoredDrawdown;
    UpsertEffect(db.positions, environment, sym, Signed(side, quantity), price);
    SignedNotional(side, quantity, price);
    OutlaySnoc(OpenRound(db.fills, environment, sym), fill);
    SnapshotExtends(db.snapshots, after.snapshots[|db.snapshots|], environment);
    CashOfNew(db.snapshots, environment,
              cash - Signed(side, fill.notional) + PositionsValue(after.positions, environment),
              cash - Signed(side, fill.notional));
  }

  lemma CashOfNew(snapshots: seq<Snapshot>, environment: string, nav: real, cash: real)
    ensures NewSnapshot(snapshots, environment, nav, cash).cash == cash
    ensures NewSnapshot(snapshots, environment, nav, cash).nav == nav
    ensures NewSnapshot(snapshots, environment, nav, cash).environment == environment
  {}

  /** A new fill keeps its environment's books exactly when its quantity is not
      negative and it starts from the current cash. */
  lemma FillAgreesIff(db: Db, environment: string, orderId: nat, symbol: string, side: Side, quantity: real,
                      price: real, startingCash: real)
    requires Agrees(db, environment) && !HasFill(db.fills, orderId)
    ensures Agrees(FillApplied(db, environment, orderId, symbol, side, quantity, price, startingCash), environment)
       <==> 0.0 <= quantity && startingCash == CurrentCash(db.snapshots, environment)
  {
    var sym := Upper(symbol);
    var fill := FillRow(environment, orderId, symbol, side, quantity, price);
    var after := FillApplied(db, environment, orderId, symbol, side, quantity, price, startingCash);
    hide Value, Upsert, OpenRound, NetQuantity, Realised, In, Outlay, Held, CostOf, PositionsValue, Upper, NewSnapshot;
    hide CurrentCash, Navs, Metrics.StoredDrawdown;
    UpsertEffect(db.positions, environment, sym, Signed(side, quantity), price);
    FillExtends(db.fills, fill, environment, sym);
    OutlaySnoc(In(db.fills, environment), fill);
    SnapshotExtends(db.snapshots, after.snapshots[|db.snapshots|], environment);
    CashOfNew(db.snapshots, environment,
              startingCash - Signed(side, fill.notional) + PositionsValue(after.positions, environment),
              startingCash - Signed(side, fill.notional));
    if quantity < 0.0 {
      assert Held(after.positions, environment, sym) != NetQuantity(after.fills, environment, sym);
    } else {
      SignedNotional(side, quantity, price);
      OutlaySnoc(OpenRound(db.fills, environment, sym), fill);
      forall s
        ensures Held(after.positions, environment, s) == NetQuantity(after.fills, environment, s)
        ensures CostOf(after.positions, environment, s) == Outlay(OpenRound(after.fills, environment, s))
      {
        FillExtends(db.fills, fill, environment, s);
        if s != sym {
          UpsertFrame(db.positions, environment, sym, Signed(side, quantity), price, environment, s);
        } else {
          EmptyOutlay();
        }
      }
    }
  }

  lemma EmptyOutlay()
    ensures Outlay([]) == 0.0
  {}

  /** Filling in one environment leaves the books of every other alone. */
  lemma FillKeepsOthers(db: Db, environment: string, orderId: nat, symbol: string, side: Side, quantity: real,
                        price: real, startingCash: real, other: string)
    requires Agrees(db, other) && other != environment
    ensures Agrees(FillApplied(db, environment, orderId, symbol, side, quantity, price, startingCash), other)
  {
    if !HasFill(db.fills, orderId) {
      var fill := FillRow(environment, orderId, symbol, side, quantity, price);
      var after := FillApplied(db, environment, orderId, symbol, side, quantity, price, startingCash);
      hide Value, Upsert, OpenRound, NetQuantity, Realised, In, Outlay, Held, CostOf, PositionsValue, Upper,
        Metrics.StoredDrawdown;
      hide CurrentCash, Navs;
      SnapshotExtends(db.snapshots, after.snapshots[|db.snapshots|], other);
      forall s
        ensures Held(after.positions, other, s) == NetQuantity(after.fills, other, s)
        ensures CostOf(after.positions, other, s) == Outlay(OpenRound(after.fills, other, s))
      {
        FillExtends(db.fills, fill, other, s);
        UpsertFrame(db.positions, environment, Upper(symbol), Signed(side, quantity), price, other, s);
      }
      FillExtends(db.fills, fill, other, symbol);
      UpsertFrame(db.positions, environment, Upper(symbol), Signed(side, quantity), price, other, symbol);
    }
  }

  // ---------------------------------------------------------------- mark to market

  lemma RevaluedKeepsBooks(rows: seq<Position>, environment: string, v: Valuation, env: string, symbol: string)
    ensures Held(Revalued(rows, environment, v), env, symbol) == Held(rows, env, symbol)
    ensures CostOf(Revalued(rows, environment, v), env, symbol) == CostOf(rows, env, symbol)
    ensures PositionsValue(Revalued(rows, environment, v), env) == PositionsValue(rows, env)
  {
    if rows != [] {
      RevaluedKeepsBooks(rows[1..], environment, v, env, symbol);
      assert Revalued(rows, environment, v)[1..] == Revalued(rows[1..], environment, v);
    }
  }

  lemma {:induction false} RevaluedAllKeepsBooks(rows: seq<Position>, environment: string, valuations: seq<Valuation>,
                                                 env: string, symbol: string)
    ensures Held(RevaluedAll(rows, environment, valuations), env, symbol) == Held(rows, env, symbol)
    ensures CostOf(RevaluedAll(rows, environment, valuations), env, symbol) == CostOf(rows, env, symbol)
    ensures PositionsValue(RevaluedAll(rows, environment, valuations), env) == PositionsValue(rows, env)
  {
    if valuations != [] {
      var front := valuations[..|valuations| - 1];
      RevaluedAllKeepsBooks(rows, environment, front, env, symbol);
      RevaluedKeepsBooks(RevaluedAll(rows, environment, front), environment, valuations[|valuations| - 1], env, symbol);
    }
  }

  /** Marking to market moves no cash, no quantity and no cost, anywhere. */
  lemma MarkToMarketKeepsBooks(db: Db, environment: string, prices: map<string, real>, env: string)
    requires Agrees(db, env)
    ensures Agrees(MarkedToMarket(db, environment, prices), env)
    ensures CurrentCash(MarkedToMarket(db, environment, prices).snapshots, env) == CurrentCash(db.snapshots, env)
  {
    var cash, valuations := CurrentCash(db.snapshots, environment), Priced(db.positions, environment, prices);
    hide RevaluedAll, Held, CostOf, PositionsValue, OpenRound, NetQuantity, Realised, In, Outlay, Priced, SumValuations;
    hide CurrentCash, Navs, Metrics.StoredDrawdown;
    forall v: seq<Valuation>, s
      ensures Held(RevaluedAll(db.positions, environment, v), env, s) == Held(db.positions, env, s)
      ensures CostOf(RevaluedAll(db.positions, environment, v), env, s) == CostOf(db.positions, env, s)
      ensures PositionsValue(RevaluedAll(db.positions, environment, v), env) == PositionsValue(db.positions, env)
    {
      RevaluedAllKeepsBooks(db.positions, environment, v, env, s);
    }
    forall nav
      ensures CurrentCash(db.snapshots + [NewSnapshot(db.snapshots, environment, nav, cash)], env)
        == CurrentCash(db.snapshots, env)
    {
      SnapshotExtends(db.snapshots, NewSnapshot(db.snapshots, environment, nav, cash), env);
    }
    assert PositionsValue(RevaluedAll(db.positions, environment, valuations), env)
        == PositionsValue(db.positions, env) by {
      RevaluedAllKeepsBooks(db.positions, environment, valuations, env, "");
    }
    assert PositionsValue(RevaluedAll(db.positions, environment, []), env) == PositionsValue(db.positions, env) by {
      RevaluedAllKeepsBooks(db.positions, environment, [], env, "");
    }
  }

  // ---------------------------------------------------------------- net asset value

  /** The net asset value stored with a new fill is the starting cash plus the
      profit of every completed round. */
  lemma FillNavIsRealised(db: Db, environment: string, orderId: nat, symbol: string, side: Side, quantity: real,
                          price: real)
    requires Agrees(db, environment) && !HasFill(db.fills, orderId) && 0.0 <= quantity
    ensures var after := FillApplied(db, environment, orderId, symbol, side, quantity, price,
                                     CurrentCash(db.snapshots, environment));
      && after.snapshots != []
      && after.snapshots[|after.snapshots| - 1].nav == STARTING_CASH + Realised(after.fills, environment)
  {
    var cash := CurrentCash(db.snapshots, environment);
    var after := FillApplied(db, environment, orderId, symbol, side, quantity, price, cash);
    hide Value, Upsert, OpenRound, NetQuantity, Realised, In, Outlay, Held, CostOf, PositionsValue, Upper, CurrentCash,
      Navs;
    hide Metrics.StoredDrawdown;
    FillAgreesIff(db, environment, orderId, symbol, side, quantity, price, cash);
    SnapshotExtends(db.snapshots, after.snapshots[|db.snapshots|], environment);
  }

  predicate AllPriced(rows: seq<Position>, environment: string, prices: map<string, real>)
  {
    forall i :: 0 <= i < |rows| && rows[i].environment == environment ==> rows[i].symbol in prices
  }

  /** Quantity times what the quote gained over the average price. */
  function Unrealised(rows: seq<Position>, environment: string, prices: map<string, real>): real
    requires AllPriced(rows, environment, prices)
  {
    if rows == [] then 0.0
    else
      var front, last := rows[..|rows| - 1], rows[|rows| - 1];
      Unrealised(front, environment, prices)
      + (if last.environment == environment then Value(last.quantity, prices[last.symbol] - last.averagePrice) else 0.0)
  }

  lemma {:induction false} PositionsValueSnoc(rows: seq<Position>, p: Position, environment: string)
    ensures PositionsValue(rows + [p], environment)
         == PositionsValue(rows, environment)
            + if p.environment == environment then Value(p.quantity, p.averagePrice) else 0.0
  {
    hide Value;
    if rows == [] {
      assert [] + [p] == [p];
    } else {
      assert (rows + [p])[1..] == rows[1..] + [p];
      PositionsValueSnoc(rows[1..], p, environment);
    }
  }

  lemma SumValuationsSnoc(valuations: seq<Valuation>, v: Valuation)
    ensures SumValuations(valuations + [v]) == SumValuations(valuations) + v.marketValue
  {
    assert (valuations + [v])[..|valuations|] == valuations;
  }

  lemma GainOverAverage(quantity: real, price: real, average: real)
    ensures Value(quantity, price) == Value(quantity, average) + Value(quantity, price - average)
  {}

  /** What the quotes are worth exceeds what the positions cost by the unrealised profit. */
  lemma {:induction false} QuotedValue(rows: seq<Position>, environment: string, prices: map<string, real>)
    requires AllPriced(rows, environment, prices)
    ensures SumValuations(Priced(rows, environment, prices))
         == PositionsValue(rows, environment) + Unrealised(rows, environment, prices)
  {
    hide Value;
    if rows != [] {
      var front, last := rows[..|rows| - 1], rows[|rows| - 1];
      QuotedValue(front, environment, prices);
      assert front + [last] == rows;
      PositionsValueSnoc(front, last, environment);
      if last.environment == environment {
        SumValuationsSnoc(Priced(front, environment, prices),
                          Valuation(last.symbol, Value(last.quantity, prices[last.symbol])));
        GainOverAverage(last.quantity, prices[last.symbol], last.averagePrice);
      } else {
        assert Priced(front, environment, prices) + [] == Priced(front, environment, prices);
      }
    }
  }

  lemma {:induction false} SomethingPriced(rows: seq<Position>, environment: string, prices: map<string, real>)
    requires AllPriced(rows, environment, prices)
    ensures HasPositions(rows, environment) <==> Priced(rows, environment, prices) != []
  {
    hide Value;
    if rows != [] {
      var front, last := rows[..|rows| - 1], rows[|rows| - 1];
      SomethingPriced(front, environment, prices);
      assert rows[|rows| - 1] == last;
      if HasPositions(front, environment) {
        var i :| 0 <= i < |front| && front[i].environment == environment;
        assert rows[i].environment == environment;
      }
    }
  }

  /** With a quote for every position, marking to market stores the starting cash
      plus realised plus unrealised profit. */
  lemma MarkToMarketNav(db: Db, environment: string, prices: map<string, real>)
    requires Agrees(db, environment) && AllPriced(db.positions, environment, prices)
    ensures var after := MarkedToMarket(db, environment, prices);
      && |after.snapshots| == |db.snapshots| + 1
      && after.snapshots[|db.snapshots|].nav
         == STARTING_CASH + Realised(db.fills, environment) + Unrealised(db.positions, environment, prices)
  {
    QuotedValue(db.positions, environment, prices);
    SomethingPriced(db.positions, environment, prices);
    hide RevaluedAll, Held, CostOf, PositionsValue, OpenRound, NetQuantity, Realised, In, Outlay, Priced, HasPositions,
      Unrealised;
    hide CurrentCash, Navs, Metrics.StoredDrawdown, AllPriced;
    assert SumValuations([]) == 0.0;
  }

  // ---------------------------------------------------------------- what a mark-to-market reports

  function TotalGain(valued: seq<ValuedPosition>): real
  {
    if valued == [] then 0.0
    else
      var last := valued[|valued| - 1];
      TotalGain(valued[..|valued| - 1]) + match last.unrealisedPnl case Some(gain) => gain case None => 0.0
  }

  /** What the positions with a quote cost. */
  function QuotedCost(rows: seq<Position>, environment: string, prices: map<string, real>): real
  {
    if rows == [] then 0.0
    else
      var last := rows[|rows| - 1];
      QuotedCost(rows[..|rows| - 1], environment, prices)
      + if last.environment == environment && last.symbol in prices then Value(last.quantity, last.averagePrice)
        else 0.0
  }

  lemma TotalGainSnoc(valued: seq<ValuedPosition>, v: ValuedPosition)
    ensures TotalGain(valued + [v]) == TotalGain(valued)
      + match v.unrealisedPnl case Some(gain) => gain case None => 0.0
  {
    assert (valued + [v])[..|valued|] == valued;
  }

  /** Every position is reported once, with a value or as an error, and the gains
      reported are what the quoted positions are worth beyond their cost. */
  lemma {:induction false} ReportCoversPositions(rows: seq<Position>, environment: string, prices: map<string, real>)
    ensures var valued, priced := ValuedPositions(rows, environment, prices), Priced(rows, environment, prices);
      && |valued| == |priced| + |Unquoted(rows, environment, prices)|
      && SumValuations(priced) == QuotedCost(rows, environment, prices) + TotalGain(valued)
    ensures Unquoted(rows, environment, prices) == [] <==> AllPriced(rows, environment, prices)
  {
    hide Value, TotalGain, SumValuations;
    if rows == [] {
      EmptyReport();
    } else {
      var front, last := rows[..|rows| - 1], rows[|rows| - 1];
      ReportCoversPositions(front, environment, prices);
      assert rows == front + [last];
      if last.environment == environment {
        TotalGainSnoc(ValuedPositions(front, environment, prices), ValuedOf(last, prices));
        if last.symbol in prices {
          SumValuationsSnoc(Priced(front, environment, prices),
                            Valuation(last.symbol, Value(last.quantity, prices[last.symbol])));
          GainOverAverage(last.quantity, prices[last.symbol], last.averagePrice);
        }
      }
      assert Priced(front, environment, prices) + [] == Priced(front, environment, prices);
      assert ValuedPositions(front, environment, prices) + [] == ValuedPositions(front, environment, prices);
    }
  }

  /** What the report says about one position. */
  lemma ValuedPositionReads(p: Position, prices: map<string, real>)
    ensures var v := ValuedOf(p, prices);
      && v.symbol == p.symbol && v.quantity == p.quantity && v.averagePrice == p.averagePrice
      && (p.symbol in prices ==>
            && v.latestPrice == Some(prices[p.symbol])
            && v.marketValue == Some(Value(p.quantity, prices[p.symbol]))
            && v.unrealisedPnl == Some(v.marketValue.value - Value(p.quantity, p.averagePrice)))
      && (p.symbol !in prices ==> v.latestPrice.None? && v.marketValue.None? && v.unrealisedPnl.None?)
  {
    if p.symbol in prices {
      GainOverAverage(p.quantity, prices[p.symbol], p.averagePrice);
    }
  }

  lemma EmptyReport()
    ensures SumValuations([]) == 0.0 && TotalGain([]) == 0.0
  {}

  /** The value reported is the value stored, except that nothing is stored when
      there are positions and none has a quote. */
  lemma ReportIsStored(db: Db, environment: string, prices: map<string, real>)
    ensures var result, after := ResultOf(db, environment, prices), MarkedToMarket(db, environment, prices);
      && result.nav == result.cash + QuotedCost(db.positions, environment, prices) + TotalGain(result.positions)
      && (result.degraded <==> !AllPriced(db.positions, environment, prices))
      && if HasPositions(db.positions, environment) && |result.errors| == |result.positions|
         then after.snapshots == db.snapshots
         else |after.snapshots| == |db.snapshots| + 1 && after.snapshots[|db.snapshots|].nav == result.nav
  {
    hide Value, TotalGain, QuotedCost, CurrentCash, RevaluedAll, AllPriced;
    ReportCoversPositions(db.positions, environment, prices);
    if !HasPositions(db.positions, environment) {
      NothingHeld(db.positions, environment, prices);
    }
  }

  // ---------------------------------------------------------------- stored drawdowns

  /** The worst drawdown stored for an environment. */
  function WorstDrawdown(snapshots: seq<Snapshot>, environment: string): real
  {
    if snapshots == [] then 0.0
    else
      var before, last := WorstDrawdown(snapshots[..|snapshots| - 1], environment), snapshots[|snapshots| - 1];
      if last.environment == environment then Max(before, last.drawdown) else before
  }

  ghost predicate DrawdownsAgree(snapshots: seq<Snapshot>, environment: string)
  {
    WorstDrawdown(snapshots, environment) == Metrics.MaxDrawdown(Navs(snapshots, environment))
  }

  /** Each stored drawdown extends the backtest statistic over the same history. */
  lemma NewSnapshotKeepsDrawdowns(snapshots: seq<Snapshot>, environment: string, nav: real, cash: real, env: string)
    requires DrawdownsAgree(snapshots, env)
    ensures DrawdownsAgree(snapshots + [NewSnapshot(snapshots, environment, nav, cash)], env)
  {
    var s := NewSnapshot(snapshots, environment, nav, cash);
    assert (snapshots + [s])[..|snapshots|] == snapshots;
    SnapshotExtends(snapshots, s, env);
    if env == environment {
      var navs := Navs(snapshots, env);
      Metrics.StoredDrawdownsAgree(navs);
      Metrics.StoredDrawdownsAgree(navs + [nav]);
      assert (navs + [nav])[..|navs|] == navs && (navs + [nav])[|navs|] == nav;
      hide Metrics.MaxDrawdown, Metrics.StoredDrawdown;
    }
  }
}
