/** Signal labelling of rac/ml/labeler.py: which barrier is touched first. */
module Labeler {
  import opened Basics

  datatype ForwardBar = ForwardBar(high: real, low: real, close: real)

  datatype Outcome = Win | Loss | Timeout

  datatype Label = Label(outcome: Outcome, exitBars: nat, pnlPct: real)

  /** Python's `s[:n]`; a negative `n` counts from the end. */
  function Slice<T>(s: seq<T>, n: int): seq<T>
  {
    if n >= 0 then (if n <= |s| then s[..n] else s)
    else if |s| + n >= 0 then s[..|s| + n] else []
  }

  /** Target and stop of a position entered at `entry`. */
  datatype Barriers = Barriers(long: bool, target: real, stop: real)
  {
    predicate HitsTarget(bar: ForwardBar)
    {
      if long then bar.high >= target else bar.low <= target
    }

    predicate HitsStop(bar: ForwardBar)
    {
      if long then bar.low <= stop else bar.high >= stop
    }

    predicate Touches(bar: ForwardBar)
    {
      HitsTarget(bar) || HitsStop(bar)
    }
  }

  /** Signals other than buy and sell have no barriers. */
  function BarriersOf(entry: real, direction: string, tpPct: real, slPct: real): Option<Barriers>
  {
    if direction == "buy" then Some(Barriers(true, entry * (1.0 + tpPct / 100.0), entry * (1.0 - slPct / 100.0)))
    else if direction == "sell" then Some(Barriers(false, entry * (1.0 - tpPct / 100.0), entry * (1.0 + slPct / 100.0)))
    else None
  }

  /** Index of the first bar that touches a barrier, or the number of bars. */
  function FirstTouch(barriers: Option<Barriers>, bars: seq<ForwardBar>): (k: nat)
    ensures k <= |bars|
    ensures barriers.None? ==> k == |bars|
    ensures barriers.Some? ==> forall j :: 0 <= j < k ==> !barriers.value.Touches(bars[j])
    ensures k < |bars| ==> barriers.Some? && barriers.value.Touches(bars[k])
  {
    if bars == [] then 0
    else if barriers.Some? && barriers.value.Touches(bars[0]) then 0
    else 1 + FirstTouch(barriers, bars[1..])
  }

  function TimeoutPnl(entry: real, direction: string, last: real): real
    requires entry != 0.0
  {
    var raw := (last - entry) / entry * 100.0;
    if direction == "buy" then raw else -raw
  }

  /** The label, or `None` where the code indexes the last of no bars. A bar that
      touches both barriers counts as a win. Rounding to four places is not modelled. */
  function LabelOf(entry: real, direction: string, forward: seq<ForwardBar>, tpPct: real, slPct: real,
                   maxBars: int): Option<Label>
  {
    if entry <= 0.0 || forward == [] then Some(Label(Timeout, 0, 0.0))
    else
      var bars := Slice(forward, maxBars);
      var barriers := BarriersOf(entry, direction, tpPct, slPct);
      var k := FirstTouch(barriers, bars);
      if k < |bars| then
        if barriers.value.HitsTarget(bars[k]) then Some(Label(Win, k + 1, tpPct)) else Some(Label(Loss, k + 1, -slPct))
      else if bars == [] then None
      else Some(Label(Timeout, |bars|, TimeoutPnl(entry, direction, bars[|bars| - 1].close)))
  }

  lemma {:induction false} FirstTouchIs(barriers: Barriers, bars: seq<ForwardBar>, k: nat)
    requires k <= |bars|
    requires forall j :: 0 <= j < k ==> !barriers.Touches(bars[j])
    requires k < |bars| ==> barriers.Touches(bars[k])
    ensures FirstTouch(Some(barriers), bars) == k
  {
    if k > 0 {
      FirstTouchIs(barriers, bars[1..], k - 1);
    }
  }

  /** The search loops of `label_signal`. */
  method LabelSignal(entry: real, direction: string, forward: seq<ForwardBar>, tpPct: real, slPct: real, maxBars: int)
    returns (r: Option<Label>)
    ensures r == LabelOf(entry, direction, forward, tpPct, slPct, maxBars)
  {
    hide FirstTouch, Slice;
    if entry <= 0.0 || forward == [] {
      return Some(Label(Timeout, 0, 0.0));
    }
    var bars := Slice(forward, maxBars);
    if direction == "buy" {
      var tp := entry * (1.0 + tpPct / 100.0);
      var sl := entry * (1.0 - slPct / 100.0);
      ghost var barriers := Barriers(true, tp, sl);
      for i := 0 to |bars|
        invariant forall j :: 0 <= j < i ==> !barriers.Touches(bars[j])
      {
        if bars[i].high >= tp {
          FirstTouchIs(barriers, bars, i);
          return Some(Label(Win, i + 1, tpPct));
        }
        if bars[i].low <= sl {
          FirstTouchIs(barriers, bars, i);
          return Some(Label(Loss, i + 1, -slPct));
        }
      }
      FirstTouchIs(barriers, bars, |bars|);
    } else if direction == "sell" {
      var tp := entry * (1.0 - tpPct / 100.0);
      var sl := entry * (1.0 + slPct / 100.0);
      ghost var barriers := Barriers(false, tp, sl);
      for i := 0 to |bars|
        invariant forall j :: 0 <= j < i ==> !barriers.Touches(bars[j])
      {
        if bars[i].low <= tp {
          FirstTouchIs(barriers, bars, i);
          return Some(Label(Win, i + 1, tpPct));
        }
        if bars[i].high >= sl {
          FirstTouchIs(barriers, bars, i);
          return Some(Label(Loss, i + 1, -slPct));
        }
      }
      FirstTouchIs(barriers, bars, |bars|);
    }
    if bars == [] {
      return None;
    }
    var raw := (bars[|bars| - 1].close - entry) / entry * 100.0;
    var pnl := if direction == "buy" then raw else -raw;
    return Some(Label(Timeout, |bars|, pnl));
  }

  // ---------------------------------------------------------------- mirror

  /** The bar seen from the other side of the entry price. */
  function ReflectBar(bar: ForwardBar, entry: real): ForwardBar
  {
    ForwardBar(2.0 * entry - bar.low, 2.0 * entry - bar.high, 2.0 * entry - bar.close)
  }

  function ReflectBars(bars: seq<ForwardBar>, entry: real): (r: seq<ForwardBar>)
    ensures |r| == |bars|
    ensures forall i :: 0 <= i < |bars| ==> r[i] == ReflectBar(bars[i], entry)
  {
    seq(|bars|, i requires 0 <= i < |bars| => ReflectBar(bars[i], entry))
  }

  lemma TouchMirrors(entry: real, tpPct: real, slPct: real, bar: ForwardBar)
    ensures var sell, buy := BarriersOf(entry, "sell", tpPct, slPct).value,
      BarriersOf(entry, "buy", tpPct, slPct).value;
      && (sell.HitsTarget(bar) <==> buy.HitsTarget(ReflectBar(bar, entry)))
      && (sell.HitsStop(bar) <==> buy.HitsStop(ReflectBar(bar, entry)))
  {
    assert entry * (1.0 + tpPct / 100.0) + entry * (1.0 - tpPct / 100.0) == 2.0 * entry;
    assert entry * (1.0 + slPct / 100.0) + entry * (1.0 - slPct / 100.0) == 2.0 * entry;
  }

  /** A sell signal is labelled as a buy signal over the reflected bars: same
      outcome, same exit bar, same profit. */
  lemma SellMirrorsBuy(entry: real, forward: seq<ForwardBar>, tpPct: real, slPct: real, maxBars: int)
    ensures LabelOf(entry, "sell", forward, tpPct, slPct, maxBars)
         == LabelOf(entry, "buy", ReflectBars(forward, entry), tpPct, slPct, maxBars)
  {
    if 0.0 < entry && forward != [] {
      var bars, mirrored := Slice(forward, maxBars), Slice(ReflectBars(forward, entry), maxBars);
      assert mirrored == ReflectBars(bars, entry);
      var sell, buy := BarriersOf(entry, "sell", tpPct, slPct), BarriersOf(entry, "buy", tpPct, slPct);
      var k := FirstTouch(sell, bars);
      forall j | 0 <= j < |bars|
        ensures sell.value.HitsTarget(bars[j]) <==> buy.value.HitsTarget(mirrored[j])
        ensures sell.value.HitsStop(bars[j]) <==> buy.value.HitsStop(mirrored[j])
      {
        TouchMirrors(entry, tpPct, slPct, bars[j]);
      }
      hide BarriersOf, Barriers.HitsTarget, Barriers.HitsStop;
      FirstTouchIs(buy.value, mirrored, k);
      if bars != [] {
        PnlMirrors(entry, bars[|bars| - 1].close);
      }
    }
  }

  lemma PnlMirrors(entry: real, last: real)
    requires entry != 0.0
    ensures TimeoutPnl(entry, "sell", last) == TimeoutPnl(entry, "buy", 2.0 * entry - last)
  {
    DivideTimes(last - entry, entry);
    DivideUnique(entry - last, entry, -((last - entry) / entry));
  }

  // ---------------------------------------------------------------- soundness

  /** A label is decided by the first bar within the horizon that touches a
      barrier, as a win whenever that bar reaches the target. */
  lemma DecidedAtFirstTouch(entry: real, direction: string, forward: seq<ForwardBar>, tpPct: real, slPct: real,
                            maxBars: int, k: nat)
    requires 0.0 < entry && (direction == "buy" || direction == "sell")
    requires k < |Slice(forward, maxBars)|
    requires var barriers := BarriersOf(entry, direction, tpPct, slPct).value;
      && (forall j :: 0 <= j < k ==> !barriers.Touches(Slice(forward, maxBars)[j]))
      && barriers.Touches(Slice(forward, maxBars)[k])
    ensures LabelOf(entry, direction, forward, tpPct, slPct, maxBars)
         == Some(if BarriersOf(entry, direction, tpPct, slPct).value.HitsTarget(Slice(forward, maxBars)[k])
                 then Label(Win, k + 1, tpPct) else Label(Loss, k + 1, -slPct))
  {
    FirstTouchIs(BarriersOf(entry, direction, tpPct, slPct).value, Slice(forward, maxBars), k);
  }

  /** A win or a loss is final: more bars or a longer horizon cannot change it. */
  lemma DecidedLabelIsFinal(entry: real, direction: string, forward: seq<ForwardBar>, more: seq<ForwardBar>,
                            tpPct: real, slPct: real, maxBars: nat, horizon: nat)
    requires maxBars <= horizon
    requires LabelOf(entry, direction, forward, tpPct, slPct, maxBars).Some?
    requires LabelOf(entry, direction, forward, tpPct, slPct, maxBars).value.outcome != Timeout
    ensures LabelOf(entry, direction, forward + more, tpPct, slPct, horizon)
         == LabelOf(entry, direction, forward, tpPct, slPct, maxBars)
  {
    var bars, longer := Slice(forward, maxBars), Slice(forward + more, horizon);
    var barriers := BarriersOf(entry, direction, tpPct, slPct);
    var k := FirstTouch(barriers, bars);
    assert bars <= longer;
    hide BarriersOf, Barriers.HitsTarget, Barriers.HitsStop;
    FirstTouchIs(barriers.value, longer, k);
  }

  /** Closes lie within their bar, as ingested bars are checked to. */
  ghost predicate Consistent(bars: seq<ForwardBar>)
  {
    forall i :: 0 <= i < |bars| ==> bars[i].low <= bars[i].close <= bars[i].high
  }

  lemma BuyTimeoutEndsBetweenBarriers(entry: real, forward: seq<ForwardBar>, tpPct: real, slPct: real, maxBars: int)
    requires 0.0 < entry && forward != [] && Consistent(forward)
    requires LabelOf(entry, "buy", forward, tpPct, slPct, maxBars).Some?
    requires LabelOf(entry, "buy", forward, tpPct, slPct, maxBars).value.outcome == Timeout
    ensures -slPct < LabelOf(entry, "buy", forward, tpPct, slPct, maxBars).value.pnlPct < tpPct
  {
    hide LabelOf, Level, TimeoutPnl;
    var last := BuyTimeoutIsUntouched(entry, forward, tpPct, slPct, maxBars);
    PctOfLevel(entry, last.close, tpPct);
    PctOfLevel(entry, last.close, -slPct);
  }

  /** The price `pct` percent above the entry. */
  function Level(entry: real, pct: real): real
  {
    entry * (1.0 + pct / 100.0)
  }

  lemma StopIsLevel(entry: real, pct: real)
    ensures entry * (1.0 - pct / 100.0) == Level(entry, -pct)
  {}

  /** The bar a timeout is measured at closes strictly between the barriers. */
  lemma BuyTimeoutIsUntouched(entry: real, forward: seq<ForwardBar>, tpPct: real, slPct: real,
                              maxBars: int) returns (last: ForwardBar)
    requires 0.0 < entry && forward != [] && Consistent(forward)
    requires LabelOf(entry, "buy", forward, tpPct, slPct, maxBars).Some?
    requires LabelOf(entry, "buy", forward, tpPct, slPct, maxBars).value.outcome == Timeout
    ensures Level(entry, -slPct) < last.close < Level(entry, tpPct)
    ensures LabelOf(entry, "buy", forward, tpPct, slPct, maxBars).value.pnlPct == TimeoutPnl(entry, "buy", last.close)
  {
    hide TimeoutPnl, FirstTouch;
    StopIsLevel(entry, slPct);
    var bars := Slice(forward, maxBars);
    last := bars[|bars| - 1];
    assert last in forward;
    assert !BarriersOf(entry, "buy", tpPct, slPct).value.Touches(last);
  }

  /** A timed-out signal ends strictly between its barriers. */
  lemma TimeoutEndsBetweenBarriers(entry: real, direction: string, forward: seq<ForwardBar>, tpPct: real, slPct: real,
                                   maxBars: int)
    requires 0.0 < entry && forward != [] && Consistent(forward)
    requires direction == "buy" || direction == "sell"
    requires LabelOf(entry, direction, forward, tpPct, slPct, maxBars).Some?
    requires LabelOf(entry, direction, forward, tpPct, slPct, maxBars).value.outcome == Timeout
    ensures -slPct < LabelOf(entry, direction, forward, tpPct, slPct, maxBars).value.pnlPct < tpPct
  {
    hide LabelOf;
    if direction == "buy" {
      BuyTimeoutEndsBetweenBarriers(entry, forward, tpPct, slPct, maxBars);
    } else {
      SellMirrorsBuy(entry, forward, tpPct, slPct, maxBars);
      BuyTimeoutEndsBetweenBarriers(entry, ReflectBars(forward, entry), tpPct, slPct, maxBars);
    }
  }

  lemma PctOfLevel(entry: real, price: real, pct: real)
    requires 0.0 < entry
    ensures price < Level(entry, pct) <==> TimeoutPnl(entry, "buy", price) < pct
    ensures price > Level(entry, pct) <==> TimeoutPnl(entry, "buy", price) > pct
  {
    var x := (price - entry) / entry * 100.0;
    DivideTimes(price - entry, entry);
    assert x * entry == (price - entry) * 100.0;
    assert 100.0 * (price - entry * (1.0 + pct / 100.0)) == (x - pct) * entry;
    SameSign(x - pct, entry, 100.0 * (price - entry * (1.0 + pct / 100.0)));
  }

  /** Labelling fails exactly when the horizon leaves no bars to look at. */
  lemma LabelFailsIff(entry: real, direction: string, forward: seq<ForwardBar>, tpPct: real, slPct: real, maxBars: int)
    ensures LabelOf(entry, direction, forward, tpPct, slPct, maxBars).None?
       <==> 0.0 < entry && forward != [] && (maxBars == 0 || maxBars <= -|forward|)
  {}
}
