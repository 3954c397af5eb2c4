/** When each automatic exit rule fires, in prices and seconds, now and over any history of a position. */
module ExitRules {
  import opened Common
  import opened Positions
  import opened PriceHistory

  /** The holding limit of a position is over, it can be sold and it has failed to sell fewer than five times. */
  predicate LimitReached(p: PositionData, now: nat)
  {
    && p.rules.maxHold > 0 && now >= p.createdAt + p.rules.maxHold
    && p.state in {Active, Confirming} && p.sellAttempts < 5
  }

  function StopPrice(p: PositionData): real
  {
    p.entryPrice * (1.0 - p.rules.stopLoss / 100.0)
  }

  function ProfitPrice(p: PositionData): real
  {
    p.entryPrice * (1.0 + p.rules.takeProfit / 100.0)
  }

  lemma LimitIff(p: PositionData, now: nat)
    ensures CheckExit(p, now) == Some(MaxLifetime) <==> LimitReached(p, now)
  {
    hide PnlPercent, DrawdownPercent;
  }

  lemma {:induction false} TermsStay(p: PositionData, ops: seq<Operation>)
    ensures Run(p, ops).createdAt == p.createdAt && Run(p, ops).rules == p.rules && Run(p, ops).entrySol == p.entrySol
    decreases |ops|
  {
    if ops != [] {
      TermsStay(p, ops[..|ops| - 1]);
    }
  }

  /** Over every history of a position the holding limit is counted from its creation, in seconds. */
  lemma LifetimeFromCreation(rules: ExitRules, lamports: nat, price: real, balance: nat, created: nat, ops: seq<Operation>, now: nat)
    ensures var q := Run(NewPosition(rules, lamports, price, balance, created), ops);
      CheckExit(q, now) == Some(MaxLifetime) <==>
        && rules.maxHold > 0 && now >= created + rules.maxHold
        && q.state in {Active, Confirming} && q.sellAttempts < 5
  {
    hide CheckExit;
    var p := NewPosition(rules, lamports, price, balance, created);
    TermsStay(p, ops);
    LimitIff(Run(p, ops), now);
  }

  lemma DrawdownIff(p: PositionData)
    requires p.highestPrice > 0.0
    ensures DrawdownPercent(p) >= p.rules.trailing <==> p.highestPrice - p.currentPrice >= p.highestPrice * p.rules.trailing / 100.0
  {
    PercentAtLeastIff(p.highestPrice - p.currentPrice, p.highestPrice, p.rules.trailing);
    assert p.highestPrice * (p.rules.trailing / 100.0) == p.highestPrice * p.rules.trailing / 100.0;
  }

  lemma GainIff(p: PositionData)
    requires p.entryPrice > 0.0
    ensures PnlPercent(p) > 0.0 <==> p.currentPrice > p.entryPrice
  {
    PercentAtMostIff(p.currentPrice - p.entryPrice, p.entryPrice, 0.0);
  }

  /**
   * The trailing stop fires exactly between the stop-loss and the take-profit, above the entry, when the market has
   * fallen from the high by the configured share of it.
   */
  lemma TrailingIff(p: PositionData, now: nat)
    requires p.state.Active? && p.entryPrice > 0.0 && p.highestPrice > 0.0 && !p.rules.followSell && !LimitReached(p, now)
    ensures CheckExit(p, now) == Some(TrailingStop) <==>
      && StopPrice(p) < p.currentPrice < ProfitPrice(p) && p.currentPrice > p.entryPrice
      && p.rules.trailing > 0.0 && p.highestPrice - p.currentPrice >= p.highestPrice * p.rules.trailing / 100.0
  {
    hide PnlPercent, DrawdownPercent;
    StopAndProfitInPrices(p, now);
    DrawdownIff(p);
    GainIff(p);
  }

  lemma FallFromHigher(high: real, peak: real, market: real, percent: real)
    requires FallenFrom(peak, market, percent) && high >= peak && market >= 0.0
    ensures FallenFrom(high, market, percent)
  {
    ScaleIff(percent / 100.0, 1.0, peak);
    if high > peak {
      ScaleIff(percent / 100.0, 1.0, high - peak);
    }
    assert high * percent / 100.0 == peak * (percent / 100.0) + (high - peak) * (percent / 100.0);
  }

  /** Over every history it fires exactly if the market has so fallen from some price since the last anchor. */
  lemma TrailingOverHistory(p: PositionData, ops: seq<Operation>, now: nat)
    requires p.highestPrice == p.currentPrice
    requires var q := Run(p, ops);
      q.state.Active? && q.entryPrice > 0.0 && !q.rules.followSell && !LimitReached(q, now)
    ensures var q := Run(p, ops);
      CheckExit(q, now) == Some(TrailingStop) <==>
        && StopPrice(q) < q.currentPrice < ProfitPrice(q) && q.currentPrice > q.entryPrice
        && exists peak :: peak in PricesSinceAnchor(p, ops) && FallenFrom(peak, q.currentPrice, q.rules.trailing)
  {
    hide CheckExit, Run;
    var q := Run(p, ops);
    HighIsPeakSinceAnchor(p, ops);
    if q.currentPrice > q.entryPrice {
      TrailingIff(q, now);
      var prices := PricesSinceAnchor(p, ops);
      forall peak | peak in prices && FallenFrom(peak, q.currentPrice, q.rules.trailing)
        ensures FallenFrom(q.highestPrice, q.currentPrice, q.rules.trailing)
      {
        var i :| 0 <= i < |prices| && prices[i] == peak;
        FallFromHigher(q.highestPrice, peak, q.currentPrice, q.rules.trailing);
      }
      assert q.highestPrice in prices;
    } else if CheckExit(q, now) == Some(TrailingStop) {
      TrailingRule(q, now);
    }
  }

  /** The whole decision for an active position with an entry price, rule by rule, without a percentage in it. */
  lemma ExitDecision(p: PositionData, now: nat)
    requires p.state.Active? && p.entryPrice > 0.0 && p.highestPrice > 0.0
    ensures CheckExit(p, now) ==
      if LimitReached(p, now) then Some(MaxLifetime)
      else if p.rules.followSell then None
      else if p.currentPrice <= StopPrice(p) then Some(StopLoss)
      else if p.currentPrice >= ProfitPrice(p) then Some(TakeProfit)
      else if p.currentPrice > p.entryPrice && FallenFrom(p.highestPrice, p.currentPrice, p.rules.trailing) then Some(TrailingStop)
      else None
  {
    hide PnlPercent, DrawdownPercent;
    if !LimitReached(p, now) && !p.rules.followSell {
      StopAndProfitInPrices(p, now);
      TrailingIff(p, now);
    }
  }

  /** Nothing but the holding limit is looked at in any other state, and without an entry price the gain counts as zero. */
  lemma OtherwiseDecision(p: PositionData, now: nat)
    requires !(p.state.Active? && p.entryPrice > 0.0)
    ensures CheckExit(p, now) ==
      if LimitReached(p, now) then Some(MaxLifetime)
      else if p.rules.followSell || !p.state.Active? then None
      else if p.rules.stopLoss <= 0.0 then Some(StopLoss)
      else if p.rules.takeProfit <= 0.0 then Some(TakeProfit)
      else None
  {
    assert p.entryPrice <= 0.0 ==> PnlPercent(p) == 0.0;
    hide DrawdownPercent;
  }
}
