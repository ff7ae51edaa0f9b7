/** The batch that labels stored signals, `SignalLabelerService.run`. */
module LabelService {
  import opened Basics
  import opened Labeler

  /** A stored signal; `entry` is the close it was generated at, if recorded. */
  datatype StoredSignal = StoredSignal(id: nat, direction: string, entry: Option<real>)

  datatype Barred = Barred(tpPct: real, slPct: real, maxBars: nat)

  datatype Counts = Counts(labeled: nat, skipped: nat, win: nat, loss: nat, timeout: nat)

  const NONE_YET := Counts(0, 0, 0, 0, 0)

  predicate Eligible(s: StoredSignal, labels: map<nat, Label>)
  {
    s.direction != "hold" && s.entry.Some? && s.id !in labels
  }

  /** The query: eligible signals in time order, at most `limit` of them. */
  function Batch(signals: seq<StoredSignal>, labels: map<nat, Label>, limit: nat): (r: seq<StoredSignal>)
    ensures forall i :: 0 <= i < |r| ==> r[i] in signals && Eligible(r[i], labels)
  {
    if signals == [] || limit == 0 then []
    else if Eligible(signals[0], labels) then [signals[0]] + Batch(signals[1..], labels, limit - 1)
    else Batch(signals[1..], labels, limit)
  }

  ghost predicate DistinctIds(signals: seq<StoredSignal>)
  {
    forall i, j :: 0 <= i < j < |signals| ==> signals[i].id != signals[j].id
  }

  function Forward(market: nat -> seq<ForwardBar>, s: StoredSignal, rules: Barred): seq<ForwardBar>
  {
    Slice(market(s.id), rules.maxBars)
  }

  /** A signal can be labelled when it has a positive entry and bars after it. */
  predicate Labelable(s: StoredSignal, market: nat -> seq<ForwardBar>, rules: Barred)
  {
    s.entry.Some? && 0.0 < s.entry.value && Forward(market, s, rules) != []
  }

  lemma LabelableHasLabel(s: StoredSignal, market: nat -> seq<ForwardBar>, rules: Barred)
    requires Labelable(s, market, rules)
    ensures LabelOf(s.entry.value, s.direction, Forward(market, s, rules), rules.tpPct, rules.slPct,
                    rules.maxBars).Some?
  {
    LabelFailsIff(s.entry.value, s.direction, Forward(market, s, rules), rules.tpPct, rules.slPct, rules.maxBars);
  }

  function LabelFor(s: StoredSignal, market: nat -> seq<ForwardBar>, rules: Barred): Label
    requires Labelable(s, market, rules)
  {
    LabelableHasLabel(s, market, rules);
    LabelOf(s.entry.value, s.direction, Forward(market, s, rules), rules.tpPct, rules.slPct, rules.maxBars).value
  }

  /** `INSERT ... ON CONFLICT (signal_id) DO NOTHING`, signal by signal. */
  function LabelsAfter(labels: map<nat, Label>, batch: seq<StoredSignal>, market: nat -> seq<ForwardBar>,
                       rules: Barred): map<nat, Label>
  {
    if batch == [] then labels
    else
      var before, s := LabelsAfter(labels, batch[..|batch| - 1], market, rules), batch[|batch| - 1];
      if Labelable(s, market, rules) && s.id !in before then before[s.id := LabelFor(s, market, rules)] else before
  }

  function CountsAfter(batch: seq<StoredSignal>, market: nat -> seq<ForwardBar>, rules: Barred): Counts
  {
    if batch == [] then NONE_YET
    else
      var c, s := CountsAfter(batch[..|batch| - 1], market, rules), batch[|batch| - 1];
      if !Labelable(s, market, rules) then c.(skipped := c.skipped + 1)
      else
        match LabelFor(s, market, rules).outcome
        case Win => c.(labeled := c.labeled + 1, win := c.win + 1)
        case Loss => c.(labeled := c.labeled + 1, loss := c.loss + 1)
        case Timeout => c.(labeled := c.labeled + 1, timeout := c.timeout + 1)
  }

  class SignalLabeler {
    var labels: map<nat, Label>

    constructor ()
      ensures labels == map[]
    {
      labels := map[];
    }

    method Run(signals: seq<StoredSignal>, market: nat -> seq<ForwardBar>, rules: Barred,
               batchSize: nat) returns (counts: Counts)
      modifies this
      ensures var batch := Batch(signals, old(labels), batchSize);
        labels == LabelsAfter(old(labels), batch, market, rules) && counts == CountsAfter(batch, market, rules)
    {
      hide Batch, LabelOf, Slice;
      var batch := Batch(signals, labels, batchSize);
      counts := NONE_YET;
      for i := 0 to |batch|
        invariant labels == LabelsAfter(old(labels), batch[..i], market, rules)
        invariant counts == CountsAfter(batch[..i], market, rules)
      {
        var s := batch[i];
        assert batch[..i + 1][..i] == batch[..i];
        var entry := s.entry.value;
        var forward := Slice(market(s.id), rules.maxBars);
        if entry <= 0.0 || forward == [] {
          counts := counts.(skipped := counts.skipped + 1);
        } else {
          LabelableHasLabel(s, market, rules);
          var result := LabelSignal(entry, s.direction, forward, rules.tpPct, rules.slPct, rules.maxBars);
          if s.id !in labels {
            labels := labels[s.id := result.value];
          }
          counts := counts.(labeled := counts.labeled + 1);
          match result.value.outcome {
            case Win => counts := counts.(win := counts.win + 1);
            case Loss => counts := counts.(loss := counts.loss + 1);
            case Timeout => counts := counts.(timeout := counts.timeout + 1);
          }
        }
      }
      assert batch[..|batch|] == batch;
    }
  }

  // ---------------------------------------------------------------- which signals a batch takes

  function EligibleAmong(signals: seq<StoredSignal>, labels: map<nat, Label>): nat
  {
    if signals == [] then 0
    else (if Eligible(signals[0], labels) then 1 else 0) + EligibleAmong(signals[1..], labels)
  }

  /** A batch is as large as there are eligible signals, up to the limit, and holds
      the eligible signal that `i` others precede at position `i`: the oldest first. */
  lemma {:induction false} BatchTakesOldest(signals: seq<StoredSignal>, labels: map<nat, Label>, limit: nat, k: nat)
    requires k < |signals| && Eligible(signals[k], labels)
    ensures var batch, i := Batch(signals, labels, limit), EligibleAmong(signals[..k], labels);
      && |batch| == (if EligibleAmong(signals, labels) < limit then EligibleAmong(signals, labels) else limit)
      && (i < limit <==> i < |batch|)
      && (i < limit ==> batch[i] == signals[k])
  {
    hide Eligible;
    BatchSize(signals, labels, limit);
    EligibleBefore(signals, labels, k);
    if limit > 0 && k > 0 {
      var rest := signals[1..];
      assert signals[..k][1..] == rest[..k - 1] && signals[..k][0] == signals[0];
      BatchTakesOldest(rest, labels, if Eligible(signals[0], labels) then limit - 1 else limit, k - 1);
    }
  }

  lemma {:induction false} BatchSize(signals: seq<StoredSignal>, labels: map<nat, Label>, limit: nat)
    ensures |Batch(signals, labels, limit)|
         == if EligibleAmong(signals, labels) < limit then EligibleAmong(signals, labels) else limit
  {
    hide Eligible;
    if signals != [] && limit > 0 {
      BatchSize(signals[1..], labels, limit - 1);
      BatchSize(signals[1..], labels, limit);
    }
  }

  lemma {:induction false} EligibleBefore(signals: seq<StoredSignal>, labels: map<nat, Label>, k: nat)
    requires k < |signals| && Eligible(signals[k], labels)
    ensures EligibleAmong(signals[..k], labels) < EligibleAmong(signals, labels)
  {
    hide Eligible;
    if k > 0 {
      assert signals[..k][1..] == signals[1..][..k - 1];
      EligibleBefore(signals[1..], labels, k - 1);
    }
  }

  // ---------------------------------------------------------------- what a run does

  lemma {:induction false} BatchIsDistinct(signals: seq<StoredSignal>, labels: map<nat, Label>, limit: nat)
    requires DistinctIds(signals)
    ensures DistinctIds(Batch(signals, labels, limit))
  {
    if signals != [] && limit != 0 {
      var rest := signals[1..];
      assert DistinctIds(rest);
      BatchIsDistinct(rest, labels, limit - 1);
      BatchIsDistinct(rest, labels, limit);
      forall s | s in rest
        ensures s.id != signals[0].id
      {
        var k :| 0 <= k < |rest| && rest[k] == s;
        assert signals[k + 1] == s;
      }
    }
  }

  /** Every signal of a batch is counted once, and every label under one outcome. */
  lemma {:induction false} CountsAddUp(batch: seq<StoredSignal>, market: nat -> seq<ForwardBar>, rules: Barred)
    ensures var c := CountsAfter(batch, market, rules);
      c.labeled + c.skipped == |batch| && c.win + c.loss + c.timeout == c.labeled
  {
    hide Labelable, LabelFor;
    if batch != [] {
      CountsAddUp(batch[..|batch| - 1], market, rules);
    }
  }

  predicate Mentions(batch: seq<StoredSignal>, id: nat)
  {
    exists i :: 0 <= i < |batch| && batch[i].id == id
  }

  lemma {:induction false} LabelsOutsideBatch(labels: map<nat, Label>, batch: seq<StoredSignal>,
                                              market: nat -> seq<ForwardBar>, rules: Barred, id: nat)
    requires !Mentions(batch, id)
    ensures var after := LabelsAfter(labels, batch, market, rules);
      (id in after <==> id in labels) && (id in labels ==> after[id] == labels[id])
  {
    hide Labelable, LabelFor;
    if batch != [] {
      assert forall i :: 0 <= i < |batch| - 1 ==> batch[..|batch| - 1][i] == batch[i];
      LabelsOutsideBatch(labels, batch[..|batch| - 1], market, rules, id);
    }
  }

  /** Each labelable signal of the batch gets its own label, and no other. */
  lemma {:induction false} LabelsInsideBatch(labels: map<nat, Label>, batch: seq<StoredSignal>,
                                             market: nat -> seq<ForwardBar>, rules: Barred, i: nat)
    requires i < |batch| && DistinctIds(batch) && batch[i].id !in labels
    ensures var after, s := LabelsAfter(labels, batch, market, rules), batch[i];
      if Labelable(s, market, rules) then s.id in after && after[s.id] == LabelFor(s, market, rules) else s.id !in after
  {
    hide Labelable, LabelFor;
    var front := batch[..|batch| - 1];
    if i == |front| {
      assert !Mentions(front, batch[i].id);
      LabelsOutsideBatch(labels, front, market, rules, batch[i].id);
    } else {
      LabelsInsideBatch(labels, front, market, rules, i);
    }
  }

  /** The number labelled is the number of rows added. */
  lemma {:induction false} RowsAdded(labels: map<nat, Label>, batch: seq<StoredSignal>, market: nat -> seq<ForwardBar>,
                                     rules: Barred)
    requires DistinctIds(batch)
    requires forall i :: 0 <= i < |batch| ==> batch[i].id !in labels
    ensures |LabelsAfter(labels, batch, market, rules)| == |labels| + CountsAfter(batch, market, rules).labeled
  {
    hide Labelable, LabelFor;
    if batch != [] {
      var front, s := batch[..|batch| - 1], batch[|batch| - 1];
      RowsAdded(labels, front, market, rules);
      assert !Mentions(front, s.id);
      LabelsOutsideBatch(labels, front, market, rules, s.id);
    }
  }

  /** A whole run over the stored signals: labels written earlier stay as they
      are, the counts cover the batch, and rows are added one per label. */
  lemma RunAccounts(signals: seq<StoredSignal>, labels: map<nat, Label>, market: nat -> seq<ForwardBar>, rules: Barred,
                    batchSize: nat)
    requires DistinctIds(signals)
    ensures var batch := Batch(signals, labels, batchSize);
      var after, c := LabelsAfter(labels, batch, market, rules), CountsAfter(batch, market, rules);
      && (forall id :: id in labels ==> id in after && after[id] == labels[id])
      && c.labeled + c.skipped == |batch|
      && c.win + c.loss + c.timeout == c.labeled
      && |after| == |labels| + c.labeled
  {
    var batch := Batch(signals, labels, batchSize);
    hide LabelsAfter, CountsAfter, Batch;
    BatchIsDistinct(signals, labels, batchSize);
    CountsAddUp(batch, market, rules);
    RowsAdded(labels, batch, market, rules);
    forall id | id in labels
      ensures var after := LabelsAfter(labels, batch, market, rules); id in after && after[id] == labels[id]
    {
      LabelsOutsideBatch(labels, batch, market, rules, id);
    }
  }
}
