/** Profit per strategy, rac/strategies/performance.py, and how it adds up. */
module Performance {
  import opened Tables
  import Ledger
  import ExactlyOnce
  import Sorting

  datatype StrategyFill = StrategyFill(strategyId: string, side: Side, notional: real)

  /** Accumulator of one strategy. */
  datatype Group = Group(strategyId: string, buys: nat, sells: nat, buyNotional: real, sellNotional: real)
  {
    function Realised(): real { sellNotional - buyNotional }

    function Plus(f: StrategyFill): Group
    {
      if f.side == Buy then this.(buys := buys + 1, buyNotional := buyNotional + f.notional)
      else this.(sells := sells + 1, sellNotional := sellNotional + f.notional)
    }
  }

  function EmptyGroup(id: string): Group { Group(id, 0, 0, 0.0, 0.0) }

  // ---------------------------------------------------------------- order of ids

  /** String comparison by code point. */
  predicate NotAfter(a: string, b: string)
  {
    a == [] || (b != [] && (a[0] < b[0] || (a[0] == b[0] && NotAfter(a[1..], b[1..]))))
  }

  lemma {:induction false} NotAfterTotal(a: string, b: string)
    ensures NotAfter(a, b) || NotAfter(b, a)
    ensures NotAfter(a, b) && NotAfter(b, a) ==> a == b
  {
    if a != [] && b != [] {
      NotAfterTotal(a[1..], b[1..]);
      assert a == [a[0]] + a[1..] && b == [b[0]] + b[1..];
    }
  }

  lemma {:induction false} NotAfterTransitive(a: string, b: string, c: string)
    requires NotAfter(a, b) && NotAfter(b, c)
    ensures NotAfter(a, c)
  {
    if a != [] && a[0] == b[0] == c[0] {
      NotAfterTransitive(a[1..], b[1..], c[1..]);
    }
  }

  predicate GroupNotAfter(a: Group, b: Group) { NotAfter(a.strategyId, b.strategyId) }

  lemma GroupOrderIsTotal()
    ensures Sorting.TotalPreorder(GroupNotAfter)
  {
    forall a, b
      ensures GroupNotAfter(a, b) || GroupNotAfter(b, a)
    {
      NotAfterTotal(a.strategyId, b.strategyId);
    }
    forall a, b, c | GroupNotAfter(a, b) && GroupNotAfter(b, c)
      ensures GroupNotAfter(a, c)
    {
      NotAfterTransitive(a.strategyId, b.strategyId, c.strategyId);
    }
  }

  // ---------------------------------------------------------------- grouping

  /** Position of a strategy's group in the dictionary, or the number of groups. */
  function IndexOf(groups: seq<Group>, id: string): (i: nat)
    ensures i <= |groups|
    ensures i < |groups| ==> groups[i].strategyId == id
    ensures forall j :: 0 <= j < i ==> groups[j].strategyId != id
  {
    if groups == [] then 0 else if groups[0].strategyId == id then 0 else 1 + IndexOf(groups[1..], id)
  }

  /** Groups in order of first appearance, as a dictionary keeps them. */
  function Added(groups: seq<Group>, f: StrategyFill): seq<Group>
  {
    var i := IndexOf(groups, f.strategyId);
    if i < |groups| then groups[i := groups[i].Plus(f)] else groups + [EmptyGroup(f.strategyId).Plus(f)]
  }

  function Grouped(fills: seq<StrategyFill>): seq<Group>
  {
    if fills == [] then [] else Added(Grouped(fills[..|fills| - 1]), fills[|fills| - 1])
  }

  /** `aggregate_performance`: a row per strategy, sorted by strategy id. */
  function Aggregated(fills: seq<StrategyFill>): seq<Group>
  {
    Sorting.Sort(Grouped(fills), GroupNotAfter)
  }

  method Aggregate(fills: seq<StrategyFill>) returns (rows: seq<Group>)
    ensures rows == Aggregated(fills)
  {
    var groups: seq<Group> := [];
    for n := 0 to |fills|
      invariant groups == Grouped(fills[..n])
    {
      var f := fills[n];
      assert fills[..n + 1][..n] == fills[..n];
      var i := IndexOf(groups, f.strategyId);
      if i == |groups| {
        groups := groups + [EmptyGroup(f.strategyId)];
      }
      if f.side == Buy {
        groups := groups[i := groups[i].(buys := groups[i].buys + 1,
                                         buyNotional := groups[i].buyNotional + f.notional)];
      } else {
        groups := groups[i := groups[i].(sells := groups[i].sells + 1,
                                         sellNotional := groups[i].sellNotional + f.notional)];
      }
    }
    assert fills[..|fills|] == fills;
    rows := Sorting.Sort(groups, GroupNotAfter);
  }

  // ---------------------------------------------------------------- what a report has to say

  /** All fills of one strategy, added up. */
  function Tally(fills: seq<StrategyFill>, id: string): Group
  {
    if fills == [] then EmptyGroup(id)
    else
      var before, last := Tally(fills[..|fills| - 1], id), fills[|fills| - 1];
      if last.strategyId == id then before.Plus(last) else before
  }

  predicate Mentions(fills: seq<StrategyFill>, id: string)
  {
    exists i :: 0 <= i < |fills| && fills[i].strategyId == id
  }

  ghost predicate HasRow(rows: seq<Group>, id: string)
  {
    exists i :: 0 <= i < |rows| && rows[i].strategyId == id
  }

  ghost predicate DistinctIds(rows: seq<Group>)
  {
    forall i, j :: 0 <= i < j < |rows| ==> rows[i].strategyId != rows[j].strategyId
  }

  /** One row for each strategy that has fills, and no other, with its totals. */
  ghost predicate Accounts(rows: seq<Group>, fills: seq<StrategyFill>)
  {
    && (forall i :: 0 <= i < |rows| ==> rows[i] == Tally(fills, rows[i].strategyId))
    && (forall id :: HasRow(rows, id) <==> Mentions(fills, id))
    && DistinctIds(rows)
  }

  lemma MentionsSnoc(fills: seq<StrategyFill>, f: StrategyFill, id: string)
    ensures Mentions(fills + [f], id) <==> Mentions(fills, id) || id == f.strategyId
    ensures Tally(fills + [f], id) == if f.strategyId == id then Tally(fills, id).Plus(f) else Tally(fills, id)
  {
    assert (fills + [f])[..|fills|] == fills;
    assert (fills + [f])[|fills|] == f;
    if Mentions(fills, id) {
      var i :| 0 <= i < |fills| && fills[i].strategyId == id;
      assert (fills + [f])[i].strategyId == id;
    }
  }

  lemma {:induction false} UnmentionedTally(fills: seq<StrategyFill>, id: string)
    requires !Mentions(fills, id)
    ensures Tally(fills, id) == EmptyGroup(id)
  {
    if fills != [] {
      MentionsSnoc(fills[..|fills| - 1], fills[|fills| - 1], id);
      assert fills[..|fills| - 1] + [fills[|fills| - 1]] == fills;
      UnmentionedTally(fills[..|fills| - 1], id);
    }
  }

  /** Number and notional of one strategy's fills on one side. */
  function CountOn(fills: seq<StrategyFill>, id: string, side: Side): nat
  {
    if fills == [] then 0
    else
      var last := fills[|fills| - 1];
      CountOn(fills[..|fills| - 1], id, side) + if last.strategyId == id && last.side == side then 1 else 0
  }

  function NotionalOn(fills: seq<StrategyFill>, id: string, side: Side): real
  {
    if fills == [] then 0.0
    else
      var last := fills[|fills| - 1];
      NotionalOn(fills[..|fills| - 1], id, side) + if last.strategyId == id && last.side == side then last.notional
                                                   else 0.0
  }

  /** A tally keeps buys and sells apart; the profit is what sells brought in
      beyond what buys cost. */
  lemma {:induction false} TallyReads(fills: seq<StrategyFill>, id: string)
    ensures var t := Tally(fills, id);
      && t.strategyId == id
      && t.buys == CountOn(fills, id, Buy) && t.sells == CountOn(fills, id, Sell)
      && t.buyNotional == NotionalOn(fills, id, Buy) && t.sellNotional == NotionalOn(fills, id, Sell)
      && t.Realised() == NotionalOn(fills, id, Sell) - NotionalOn(fills, id, Buy)
  {
    if fills != [] {
      TallyReads(fills[..|fills| - 1], id);
    }
  }

  /** So each row of a report gives the buys and sells of its strategy. */
  lemma ReportedRowReads(fills: seq<StrategyFill>, i: nat)
    requires i < |Aggregated(fills)|
    ensures var row := Aggregated(fills)[i];
      && row.buys == CountOn(fills, row.strategyId, Buy) && row.sells == CountOn(fills, row.strategyId, Sell)
      && row.buyNotional == NotionalOn(fills, row.strategyId, Buy)
      && row.sellNotional == NotionalOn(fills, row.strategyId, Sell)
  {
    hide Aggregated, Tally, CountOn, NotionalOn;
    AggregatedAccounts(fills);
    TallyReads(fills, Aggregated(fills)[i].strategyId);
  }

  lemma AddedAccounts(groups: seq<Group>, fills: seq<StrategyFill>, f: StrategyFill)
    requires Accounts(groups, fills)
    ensures Accounts(Added(groups, f), fills + [f])
  {
    hide Tally, Mentions, Group.Plus;
    var r, id := Added(groups, f), f.strategyId;
    PlusKeepsId(f);
    var i := IndexOf(groups, id);
    MentionsSnoc(fills, f, id);
    if i == |groups| {
      assert !HasRow(groups, id);
      UnmentionedTally(fills, id);
    } else {
      assert HasRow(groups, id);
    }
    forall k | 0 <= k < |r|
      ensures r[k] == Tally(fills + [f], r[k].strategyId)
    {
      MentionsSnoc(fills, f, r[k].strategyId);
    }
    forall other
      ensures HasRow(r, other) <==> Mentions(fills + [f], other)
    {
      MentionsSnoc(fills, f, other);
      if HasRow(groups, other) {
        var k :| 0 <= k < |groups| && groups[k].strategyId == other;
        assert r[k].strategyId == other;
      }
      if other == id {
        assert r[i].strategyId == id;
      }
      if HasRow(r, other) && other != id {
        var k :| 0 <= k < |r| && r[k].strategyId == other;
        assert groups[k].strategyId == other;
      }
    }
  }

  lemma PlusKeepsId(f: StrategyFill)
    ensures forall g: Group :: g.Plus(f).strategyId == g.strategyId
  {}

  lemma {:induction false} GroupedAccounts(fills: seq<StrategyFill>)
    ensures Accounts(Grouped(fills), fills)
  {
    hide Added;
    if fills != [] {
      hide Accounts;
      GroupedAccounts(fills[..|fills| - 1]);
      AddedAccounts(Grouped(fills[..|fills| - 1]), fills[..|fills| - 1], fills[|fills| - 1]);
      assert fills[..|fills| - 1] + [fills[|fills| - 1]] == fills;
    }
  }

  /** Sorting keeps a report a report. */
  lemma PermutedAccounts(rows: seq<Group>, sorted: seq<Group>, fills: seq<StrategyFill>)
    requires Accounts(rows, fills) && multiset(rows) == multiset(sorted)
    ensures Accounts(sorted, fills)
  {
    hide Tally, Mentions;
    forall i | 0 <= i < |sorted|
      ensures sorted[i] == Tally(fills, sorted[i].strategyId)
    {
      assert sorted[i] in multiset(rows);
    }
    forall id
      ensures HasRow(sorted, id) <==> HasRow(rows, id)
    {
      if HasRow(rows, id) {
        var k :| 0 <= k < |rows| && rows[k].strategyId == id;
        assert rows[k] in multiset(sorted);
      }
      if HasRow(sorted, id) {
        var k :| 0 <= k < |sorted| && sorted[k].strategyId == id;
        assert sorted[k] in multiset(rows);
      }
    }
    forall i, j | 0 <= i < j < |sorted|
      ensures sorted[i].strategyId != sorted[j].strategyId
    {
      if sorted[i].strategyId == sorted[j].strategyId {
        assert sorted[i] == sorted[j];
        TwiceInSequence(sorted, i, j);
        OnceInSequence(rows, sorted[i]);
      }
    }
  }

  lemma TwiceInSequence<T>(s: seq<T>, i: nat, j: nat)
    requires i < j < |s| && s[i] == s[j]
    ensures multiset(s)[s[i]] >= 2
  {
    assert s == s[..i] + [s[i]] + s[i + 1..j] + [s[j]] + s[j + 1..];
  }

  lemma {:induction false} OnceInSequence(rows: seq<Group>, g: Group)
    requires DistinctIds(rows)
    ensures multiset(rows)[g] <= 1
  {
    if rows != [] {
      var front, last := rows[..|rows| - 1], rows[|rows| - 1];
      assert rows == front + [last];
      OnceInSequence(front, g);
    }
  }

  /** `aggregate_performance` reports every strategy that has fills, once, with
      its totals, in order of strategy id. */
  lemma AggregatedAccounts(fills: seq<StrategyFill>)
    ensures Accounts(Aggregated(fills), fills)
    ensures Sorting.Ascending(Aggregated(fills), GroupNotAfter)
  {
    GroupedAccounts(fills);
    PermutedAccounts(Grouped(fills), Aggregated(fills), fills);
    GroupOrderIsTotal();
    Sorting.SortAscending(Grouped(fills), GroupNotAfter);
  }

  // ---------------------------------------------------------------- independence of the order of fills

  lemma PlusCommutes(g: Group, a: StrategyFill, b: StrategyFill)
    ensures g.Plus(a).Plus(b) == g.Plus(b).Plus(a)
  {}

  lemma {:induction false} TallyMove(p: seq<StrategyFill>, x: StrategyFill, q: seq<StrategyFill>, id: string)
    ensures Tally(p + [x] + q, id) == Tally(p + q + [x], id)
  {
    if q == [] {
      assert p + [x] + q == p + q + [x];
    } else {
      hide Group.Plus;
      var front, y := q[..|q| - 1], q[|q| - 1];
      TallyMove(p, x, front, id);
      assert p + [x] + q == (p + [x] + front) + [y];
      assert p + q + [x] == ((p + front) + [y]) + [x];
      MentionsSnoc(p + [x] + front, y, id);
      MentionsSnoc(p + front, x, id);
      MentionsSnoc(p + front, y, id);
      MentionsSnoc((p + front) + [y], x, id);
      PlusCommutes(Tally(p + front, id), x, y);
    }
  }

  /** The last element of one ordering, found in another. */
  lemma LastElsewhere<T>(a: seq<T>, b: seq<T>) returns (p: seq<T>, q: seq<T>)
    requires a != [] && multiset(a) == multiset(b)
    ensures b == p + [a[|a| - 1]] + q
    ensures multiset(a[..|a| - 1]) == multiset(p + q)
  {
    var front, x := a[..|a| - 1], a[|a| - 1];
    assert front + [] == front && a == front + [x] + [];
    WithoutOne(front, x, []);
    assert x in multiset(b);
    var k :| 0 <= k < |b| && b[k] == x;
    p, q := b[..k], b[k + 1..];
    assert b == p + [x] + q;
    WithoutOne(p, x, q);
  }

  lemma WithoutOne<T>(p: seq<T>, x: T, q: seq<T>)
    ensures multiset(p + q) == multiset(p + [x] + q) - multiset{x}
  {}

  lemma {:induction false} TallyPermuted(a: seq<StrategyFill>, b: seq<StrategyFill>, id: string)
    requires multiset(a) == multiset(b)
    ensures Tally(a, id) == Tally(b, id)
  {
    if a == [] {
      assert |multiset(b)| == 0;
    } else {
      hide Tally, Mentions, Group.Plus;
      var front, x := a[..|a| - 1], a[|a| - 1];
      var p, q := LastElsewhere(a, b);
      TallyPermuted(front, p + q, id);
      TallyMove(p, x, q, id);
      assert a == front + [x];
      MentionsSnoc(front, x, id);
      MentionsSnoc(p + q, x, id);
    }
  }

  lemma MentionsPermuted(a: seq<StrategyFill>, b: seq<StrategyFill>, id: string)
    requires multiset(a) == multiset(b) && Mentions(a, id)
    ensures Mentions(b, id)
  {
    var i :| 0 <= i < |a| && a[i].strategyId == id;
    assert a[i] in multiset(b);
  }

  /** Two reports in id order that have the same ids and agree on each are equal. */
  lemma {:induction false} ReportsEqual(r: seq<Group>, s: seq<Group>)
    requires Sorting.Ascending(r, GroupNotAfter) && Sorting.Ascending(s, GroupNotAfter)
    requires DistinctIds(r) && DistinctIds(s)
    requires Includes(s, r) && Includes(r, s) && Agree(r, s)
    ensures r == s
  {
    if r == [] {
      OnlyNothingIsIncluded(s);
    } else {
      assert HasRow(s, r[|r| - 1].strategyId);
      assert HasRow(r, s[|s| - 1].strategyId);
      var m, n := |r| - 1, |s| - 1;
      LastIdsEqual(r, s);
      var front, back := r[..m], s[..n];
      FrontHasRows(r, s);
      FrontHasRows(s, r);
      FrontOfReport(r);
      FrontOfReport(s);
      assert r[m] == s[n] && Agree(front, back);
      hide Includes, Agree, DistinctIds, Sorting.Ascending, HasRow;
      ReportsEqual(front, back);
      assert r == front + [r[m]] && s == back + [s[n]];
    }
  }

  /** Every id of `r` has a row in `s`. */
  ghost predicate Includes(s: seq<Group>, r: seq<Group>)
  {
    forall i :: 0 <= i < |r| ==> HasRow(s, r[i].strategyId)
  }

  ghost predicate Agree(r: seq<Group>, s: seq<Group>)
  {
    forall i, j :: 0 <= i < |r| && 0 <= j < |s| && r[i].strategyId == s[j].strategyId ==> r[i] == s[j]
  }

  lemma OnlyNothingIsIncluded(s: seq<Group>)
    requires Includes([], s)
    ensures s == []
  {
    hide HasRow;
    if s != [] {
      NoRows(s[0].strategyId);
    }
  }

  lemma NoRows(id: string)
    ensures !HasRow([], id)
  {}

  lemma FrontOfReport(r: seq<Group>)
    requires r != [] && Sorting.Ascending(r, GroupNotAfter) && DistinctIds(r)
    ensures Sorting.Ascending(r[..|r| - 1], GroupNotAfter) && DistinctIds(r[..|r| - 1])
  {}

  lemma LastIdsEqual(r: seq<Group>, s: seq<Group>)
    requires r != [] && s != []
    requires Sorting.Ascending(r, GroupNotAfter) && Sorting.Ascending(s, GroupNotAfter)
    requires HasRow(s, r[|r| - 1].strategyId) && HasRow(r, s[|s| - 1].strategyId)
    ensures r[|r| - 1].strategyId == s[|s| - 1].strategyId
  {
    var j :| 0 <= j < |s| && s[j].strategyId == r[|r| - 1].strategyId;
    var i :| 0 <= i < |r| && r[i].strategyId == s[|s| - 1].strategyId;
    assert j == |s| - 1 || GroupNotAfter(s[j], s[|s| - 1]);
    assert i == |r| - 1 || GroupNotAfter(r[i], r[|r| - 1]);
    NotAfterTotal(r[|r| - 1].strategyId, s[|s| - 1].strategyId);
  }

  lemma FrontHasRows(r: seq<Group>, s: seq<Group>)
    requires r != [] && s != [] && DistinctIds(r)
    requires r[|r| - 1].strategyId == s[|s| - 1].strategyId
    requires Includes(s, r)
    ensures Includes(s[..|s| - 1], r[..|r| - 1])
  {
    var front, back := r[..|r| - 1], s[..|s| - 1];
    forall i | 0 <= i < |front|
      ensures HasRow(back, front[i].strategyId)
    {
      assert front[i] == r[i] && HasRow(s, r[i].strategyId);
      var k :| 0 <= k < |s| && s[k].strategyId == r[i].strategyId;
      assert k != |s| - 1;
      assert back[k].strategyId == front[i].strategyId;
    }
  }

  /** The report does not depend on the order of the fills. */
  lemma OrderOfFillsIsIrrelevant(a: seq<StrategyFill>, b: seq<StrategyFill>)
    requires multiset(a) == multiset(b)
    ensures Aggregated(a) == Aggregated(b)
  {
    AggregatedAccounts(a);
    AggregatedAccounts(b);
    hide Tally, Mentions, Aggregated;
    var r, s := Aggregated(a), Aggregated(b);
    forall i, j | 0 <= i < |r| && 0 <= j < |s| && r[i].strategyId == s[j].strategyId
      ensures r[i] == s[j]
    {
      TallyPermuted(a, b, r[i].strategyId);
    }
    forall i | 0 <= i < |r|
      ensures HasRow(s, r[i].strategyId)
    {
      assert HasRow(r, r[i].strategyId);
      MentionsPermuted(a, b, r[i].strategyId);
    }
    forall i | 0 <= i < |s|
      ensures HasRow(r, s[i].strategyId)
    {
      assert HasRow(s, s[i].strategyId);
      MentionsPermuted(b, a, s[i].strategyId);
    }
    ReportsEqual(r, s);
  }

  // ---------------------------------------------------------------- totals

  function TotalRealised(rows: seq<Group>): real
  {
    if rows == [] then 0.0 else TotalRealised(rows[..|rows| - 1]) + rows[|rows| - 1].Realised()
  }

  function TotalFills(rows: seq<Group>): nat
  {
    if rows == [] then 0 else TotalFills(rows[..|rows| - 1]) + rows[|rows| - 1].buys + rows[|rows| - 1].sells
  }

  function Received(fills: seq<StrategyFill>): real
  {
    if fills == [] then 0.0
    else Received(fills[..|fills| - 1]) - Signed(fills[|fills| - 1].side, fills[|fills| - 1].notional)
  }

  lemma TotalsSnoc(rows: seq<Group>, g: Group)
    ensures TotalRealised(rows + [g]) == TotalRealised(rows) + g.Realised()
    ensures TotalFills(rows + [g]) == TotalFills(rows) + g.buys + g.sells
  {
    assert (rows + [g])[..|rows|] == rows;
  }

  lemma {:induction false} TotalsUpdated(rows: seq<Group>, i: nat, g: Group)
    requires i < |rows|
    ensures TotalRealised(rows[i := g]) == TotalRealised(rows) - rows[i].Realised() + g.Realised()
    ensures TotalFills(rows[i := g]) == TotalFills(rows) - rows[i].buys - rows[i].sells + g.buys + g.sells
  {
    var front := rows[..|rows| - 1];
    if i == |rows| - 1 {
      assert rows[i := g][..|rows| - 1] == front;
    } else {
      TotalsUpdated(front, i, g);
      assert rows[i := g][..|rows| - 1] == front[i := g];
    }
  }

  lemma {:induction false} TotalsInserted(rows: seq<Group>, g: Group)
    ensures TotalRealised(Sorting.Insert(rows, g, GroupNotAfter)) == TotalRealised(rows) + g.Realised()
    ensures TotalFills(Sorting.Insert(rows, g, GroupNotAfter)) == TotalFills(rows) + g.buys + g.sells
  {
    TotalsSnoc(rows, g);
    if rows == [] {
      TotalsSnoc([], g);
      assert [] + [g] == [g];
    } else {
      var front, last := rows[..|rows| - 1], rows[|rows| - 1];
      TotalsInserted(front, g);
      TotalsSnoc(Sorting.Insert(front, g, GroupNotAfter), last);
      hide GroupNotAfter;
    }
  }

  lemma {:induction false} TotalsSorted(rows: seq<Group>)
    ensures TotalRealised(Sorting.Sort(rows, GroupNotAfter)) == TotalRealised(rows)
    ensures TotalFills(Sorting.Sort(rows, GroupNotAfter)) == TotalFills(rows)
  {
    if rows != [] {
      TotalsSorted(rows[..|rows| - 1]);
      TotalsInserted(Sorting.Sort(rows[..|rows| - 1], GroupNotAfter), rows[|rows| - 1]);
    }
  }

  lemma {:induction false} TotalsGrouped(fills: seq<StrategyFill>)
    ensures TotalRealised(Grouped(fills)) == Received(fills)
    ensures TotalFills(Grouped(fills)) == |fills|
  {
    if fills != [] {
      var groups, f := Grouped(fills[..|fills| - 1]), fills[|fills| - 1];
      TotalsGrouped(fills[..|fills| - 1]);
      var i := IndexOf(groups, f.strategyId);
      if i < |groups| {
        TotalsUpdated(groups, i, groups[i].Plus(f));
      } else {
        TotalsSnoc(groups, EmptyGroup(f.strategyId).Plus(f));
      }
    }
  }

  // ---------------------------------------------------------------- reconciling with cash

  /** Close orders are reported under one strategy of their own. */
  function StrategyOf(origin: Origin): string
  {
    match origin
    case FromSignal(strategyId, _) => strategyId
    case CloseOf(_, _) => "sl_tp_close"
  }

  /** `fills JOIN orders` of one environment. */
  function Joined(db: Db, environment: string): seq<StrategyFill>
    requires ExactlyOnce.FillsHaveOrders(db)
  {
    JoinedUpTo(db, environment, |db.fills|)
  }

  function JoinedUpTo(db: Db, environment: string, n: nat): seq<StrategyFill>
    requires ExactlyOnce.FillsHaveOrders(db) && n <= |db.fills|
  {
    if n == 0 then []
    else
      var f := db.fills[n - 1];
      JoinedUpTo(db, environment, n - 1)
      + if f.environment == environment
        then [StrategyFill(StrategyOf(db.orders[f.orderId].origin), f.side, f.notional)]
        else []
  }

  lemma {:induction false} JoinedReceives(db: Db, environment: string, n: nat)
    requires ExactlyOnce.FillsHaveOrders(db) && n <= |db.fills|
    ensures Received(JoinedUpTo(db, environment, n)) == -Ledger.Outlay(Ledger.In(db.fills[..n], environment))
    ensures |JoinedUpTo(db, environment, n)| == |Ledger.In(db.fills[..n], environment)|
  {
    if n > 0 {
      JoinedReceives(db, environment, n - 1);
      JoinedReceivesStep(db, environment, n);
    }
  }

  lemma JoinedReceivesStep(db: Db, environment: string, n: nat)
    requires ExactlyOnce.FillsHaveOrders(db) && 0 < n <= |db.fills|
    requires Received(JoinedUpTo(db, environment, n - 1)) == -Ledger.Outlay(Ledger.In(db.fills[..n - 1], environment))
    requires |JoinedUpTo(db, environment, n - 1)| == |Ledger.In(db.fills[..n - 1], environment)|
    ensures Received(JoinedUpTo(db, environment, n)) == -Ledger.Outlay(Ledger.In(db.fills[..n], environment))
    ensures |JoinedUpTo(db, environment, n)| == |Ledger.In(db.fills[..n], environment)|
  {
    hide Received, Ledger.Outlay, Ledger.In, Ledger.NetQuantity, Ledger.OpenRound, Ledger.Realised, StrategyOf;
    var f, front, past := db.fills[n - 1], JoinedUpTo(db, environment, n - 1), db.fills[..n - 1];
    assert db.fills[..n] == past + [f];
    Ledger.FillExtends(past, f, environment, f.symbol);
    Ledger.OutlaySnoc(Ledger.In(past, environment), f);
    ReceivedSnoc(front, StrategyFill(StrategyOf(db.orders[f.orderId].origin), f.side, f.notional));
    assert front + [] == front;
  }

  lemma ReceivedSnoc(fills: seq<StrategyFill>, f: StrategyFill)
    ensures Received(fills + [f]) == Received(fills) - Signed(f.side, f.notional)
  {
    assert (fills + [f])[..|fills|] == fills;
  }

  /** On every reachable ledger the profits of all strategies add up to the cash
      gained since the start, and every fill is counted in exactly one of them. */
  lemma ProfitsAddUpToCash(events: seq<ExactlyOnce.Event>, environment: string)
    requires ExactlyOnce.Plausible(EMPTY, events)
    ensures var db := ExactlyOnce.Run(EMPTY, events);
      && ExactlyOnce.FillsHaveOrders(db)
      && TotalRealised(Aggregated(Joined(db, environment))) == CurrentCash(db.snapshots, environment) - STARTING_CASH
      && TotalFills(Aggregated(Joined(db, environment))) == |Ledger.In(db.fills, environment)|
  {
    var db := ExactlyOnce.Run(EMPTY, events);
    ExactlyOnce.EmptyIsSound();
    ExactlyOnce.RunKeepsSound(EMPTY, events);
    ExactlyOnce.LedgerOfEveryRun(events, environment, "");
    hide ExactlyOnce.Run, ExactlyOnce.Plausible, CurrentCash, Ledger.Agrees, Ledger.DrawdownsAgree,
      ExactlyOnce.UniqueKeys;
    var fills := Joined(db, environment);
    TotalsGrouped(fills);
    TotalsSorted(Grouped(fills));
    JoinedReceives(db, environment, |db.fills|);
    assert db.fills[..|db.fills|] == db.fills;
  }
}
