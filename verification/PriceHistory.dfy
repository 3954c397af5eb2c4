/** What the tracked peak of a position means over any history of operations, and when the trailing stop may fire. */
module PriceHistory {
  import opened Common
  import opened Positions

  function Run(p: PositionData, ops: seq<Operation>): PositionData
    decreases |ops|
  {
    if ops == [] then p else Apply(Run(p, ops[..|ops| - 1]), ops[|ops| - 1])
  }

  /** Operations that restart peak tracking: an activation with tokens, and a partial sell that goes through. */
  predicate Anchors(p: PositionData, op: Operation)
  {
    Accepted(p, op) && ((op.Activate? && op.amount > 0) || op.SellPart?)
  }

  /** The prices that count towards the peak: the price at the last anchor and every tick or correction since. */
  function PricesSinceAnchor(p: PositionData, ops: seq<Operation>): seq<real>
    decreases |ops|
  {
    if ops == [] then [p.currentPrice] else
    var before := ops[..|ops| - 1];
    var last := ops[|ops| - 1];
    if Anchors(Run(p, before), last) then [Run(p, ops).currentPrice]
    else if last.Tick? || last.CorrectEntry? then PricesSinceAnchor(p, before) + [last.price]
    else PricesSinceAnchor(p, before)
  }

  ghost predicate IsMaximumOf(v: real, prices: seq<real>)
  {
    v in prices && forall i | 0 <= i < |prices| :: prices[i] <= v
  }

  lemma MaximumAppended(v: real, prices: seq<real>, x: real)
    requires IsMaximumOf(v, prices)
    ensures IsMaximumOf(MaxReal(v, x), prices + [x])
  {
    assert (prices + [x])[|prices|] == x;
    var i :| 0 <= i < |prices| && prices[i] == v;
    assert (prices + [x])[i] == v;
  }

  /** In every history of a position the recorded high is the maximum of the prices since the last anchor, never below the market price. */
  lemma {:induction false} HighIsPeakSinceAnchor(p: PositionData, ops: seq<Operation>)
    requires p.highestPrice == p.currentPrice
    ensures IsMaximumOf(Run(p, ops).highestPrice, PricesSinceAnchor(p, ops))
    ensures Run(p, ops).currentPrice <= Run(p, ops).highestPrice
    decreases |ops|
  {
    if ops == [] {
      assert PricesSinceAnchor(p, ops)[0] == p.currentPrice;
    } else {
      var before, last := ops[..|ops| - 1], ops[|ops| - 1];
      HighIsPeakSinceAnchor(p, before);
      if Anchors(Run(p, before), last) {
        assert PricesSinceAnchor(p, ops)[0] == Run(p, ops).currentPrice;
      } else if last.Tick? || last.CorrectEntry? {
        MaximumAppended(Run(p, before).highestPrice, PricesSinceAnchor(p, before), last.price);
      }
    }
  }

  /** The market price lies below `peak` by at least `percent` of it. */
  predicate FallenFrom(peak: real, market: real, percent: real)
  {
    peak > 0.0 && percent > 0.0 && peak - market >= peak * percent / 100.0
  }

  /**
   * A trailing stop is only ever raised for an active position in profit, and some price since the
   * last anchor lies above the market price by at least the configured share of that price.
   */
  lemma TrailingStopHasAPeak(p: PositionData, ops: seq<Operation>, now: nat)
    requires p.highestPrice == p.currentPrice
    requires CheckExit(Run(p, ops), now) == Some(TrailingStop)
    ensures var q := Run(p, ops);
      && q.state.Active?
      && q.currentPrice > q.entryPrice > 0.0
      && exists peak :: peak in PricesSinceAnchor(p, ops) && FallenFrom(peak, q.currentPrice, q.rules.trailing)
  {
    HighIsPeakSinceAnchor(p, ops);
    TrailingRule(Run(p, ops), now);
    assert Run(p, ops).highestPrice in PricesSinceAnchor(p, ops);
  }

  lemma TrailingRule(q: PositionData, now: nat)
    requires CheckExit(q, now) == Some(TrailingStop)
    ensures q.state.Active? && q.currentPrice > q.entryPrice > 0.0
    ensures FallenFrom(q.highestPrice, q.currentPrice, q.rules.trailing)
  {
    RatioBound(q.highestPrice - q.currentPrice, q.highestPrice, q.rules.trailing);
    if q.currentPrice <= q.entryPrice && q.entryPrice > 0.0 {
      GainIsNotPositive(q.currentPrice - q.entryPrice, q.entryPrice);
    }
  }

  /** The percentage rules in terms of prices, for an active position with an entry price. */
  lemma StopAndProfitInPrices(p: PositionData, now: nat)
    requires p.state.Active? && p.entryPrice > 0.0 && !LifetimeOver(p, now) && !p.rules.followSell
    ensures CheckExit(p, now) == Some(StopLoss) <==> p.currentPrice <= p.entryPrice * (1.0 - p.rules.stopLoss / 100.0)
    ensures CheckExit(p, now) == Some(TakeProfit) <==>
      p.currentPrice > p.entryPrice * (1.0 - p.rules.stopLoss / 100.0)
      && p.currentPrice >= p.entryPrice * (1.0 + p.rules.takeProfit / 100.0)
  {
    hide LifetimeOver, DrawdownPercent;
    PercentAtMostIff(p.currentPrice - p.entryPrice, p.entryPrice, -p.rules.stopLoss);
    PercentAtLeastIff(p.currentPrice - p.entryPrice, p.entryPrice, p.rules.takeProfit);
    assert p.entryPrice * (1.0 - p.rules.stopLoss / 100.0) == p.entryPrice + p.entryPrice * (-p.rules.stopLoss / 100.0);
    assert p.entryPrice * (1.0 + p.rules.takeProfit / 100.0) == p.entryPrice + p.entryPrice * (p.rules.takeProfit / 100.0);
  }

  lemma PercentAtMostIff(part: real, whole: real, percent: real)
    requires whole > 0.0
    ensures (part / whole) * 100.0 <= percent <==> part <= whole * (percent / 100.0)
  {
    ScaleIff(part / whole, percent / 100.0, whole);
    assert (part / whole) * whole == part;
  }

  lemma PercentAtLeastIff(part: real, whole: real, percent: real)
    requires whole > 0.0
    ensures (part / whole) * 100.0 >= percent <==> part >= whole * (percent / 100.0)
  {
    ScaleIff(percent / 100.0, part / whole, whole);
    assert (part / whole) * whole == part;
  }

  lemma ScaleIff(a: real, b: real, c: real)
    requires c > 0.0
    ensures a <= b <==> a * c <= b * c
  {
    if a <= b {
      ScaleBound(b, a, c);
    } else {
      ScaleStrictly(a, b, c);
    }
  }

  lemma ScaleStrictly(a: real, b: real, c: real)
    requires a > b && c > 0.0
    ensures a * c > b * c
  {
  }

  lemma RatioBound(part: real, whole: real, percent: real)
    requires whole > 0.0 && percent > 0.0 && (part / whole) * 100.0 >= percent
    ensures part >= whole * percent / 100.0
  {
    var r := part / whole;
    assert part == r * whole;
    ScaleBound(r, percent / 100.0, whole);
  }

  lemma ScaleBound(a: real, b: real, c: real)
    requires a >= b && c > 0.0
    ensures a * c >= b * c
  {
  }

  lemma GainIsNotPositive(gain: real, base: real)
    requires base > 0.0 && gain <= 0.0
    ensures (gain / base) * 100.0 <= 0.0
  {
    assert (gain / base) * base == gain;
  }

  /** Neither a market price nor an entry correction. */
  predicate Quiet(op: Operation)
  {
    !op.Tick? && !op.CorrectEntry?
  }

  /** After a partial sell goes through, no trailing stop fires until a new price or an entry correction arrives. */
  lemma {:induction false} NoTrailingStopRightAfterPartialSell(p: PositionData, sold: nat, at: nat, ops: seq<Operation>, now: nat)
    requires Accepted(p, SellPart(sold, at))
    requires forall i | 0 <= i < |ops| :: Quiet(ops[i])
    ensures var q := Run(Apply(p, SellPart(sold, at)), ops);
      q.highestPrice == q.currentPrice && CheckExit(q, now) != Some(TrailingStop)
    decreases |ops|
  {
    if ops != [] {
      NoTrailingStopRightAfterPartialSell(p, sold, at, ops[..|ops| - 1], now);
    }
  }

  /** For a position whose attempts are used up the exit rules answer as if it had no lifetime limit. */
  lemma ExhaustedExitIsExitWithoutLifetime(p: PositionData, now: nat)
    requires AttemptsExhausted(p)
    ensures CheckExit(p, now) == CheckExit(p.(rules := p.rules.(maxHold := 0), sellAttempts := 0), now)
  {
    var q := p.(rules := p.rules.(maxHold := 0), sellAttempts := 0);
    assert PnlPercent(p) == PnlPercent(q) && DrawdownPercent(p) == DrawdownPercent(q);
  }
}
