/** What the suspension of automatic selling after five failures amounts to. */
module Suspension {
  import opened Common
  import opened Positions
  import opened PriceHistory
  import opened SellExecutor

  datatype Signal = Signal(reason: SellReason, env: Surroundings)

  /** The position after signals handled one after another. */
  function AfterSignals(p: PositionData, signals: seq<Signal>): PositionData
    decreases |signals|
  {
    if signals == [] then p else
    var last := signals[|signals| - 1];
    AfterSellSignal(AfterSignals(p, signals[..|signals| - 1]), last.reason, last.env)
  }

  /** An automatic signal that claims the position and sells nothing. */
  predicate Fails(p: PositionData, s: Signal)
  {
    s.reason != Manual && Attempted(p, s.env) && !WasConfirmed(Sends(s.env.viaJupiter, s.env.attempts))
  }

  /** Signals that fail do nothing to the position but count. */
  lemma {:induction false} FailedSignalsOnlyCount(p: PositionData, signals: seq<Signal>)
    requires p.sellAttempts + |signals| < TWO_32 && forall s | s in signals :: Fails(p, s)
    ensures AfterSignals(p, signals)
      == p.(sellAttempts := p.sellAttempts + |signals|, zeroSkips := if signals == [] then p.zeroSkips else 0)
    decreases |signals|
  {
    if signals != [] {
      var init, last := signals[..|signals| - 1], signals[|signals| - 1];
      FailedSignalsOnlyCount(p, init);
      assert Fails(p, last);
      SellSignalSettles(AfterSignals(p, init), last.reason, last.env);
    }
  }

  /** How the claim of a failed signal is given up. */
  function ReleaseOf(p: PositionData, s: Signal): Operation
  {
    Release(Apply(p, StartSelling), s.reason, p.state, Sends(s.env.viaJupiter, s.env.attempts))
  }

  /** The code suspends from the fifth failure on, and not before. */
  lemma SuspendsFromFifthFailure(p: PositionData, signals: seq<Signal>, next: Signal)
    requires p.sellAttempts == 0 && |signals| + 1 < TWO_32
    requires Fails(p, next) && forall s | s in signals :: Fails(p, s)
    ensures ReleaseOf(AfterSignals(p, signals), next) ==
      if |signals| >= 4 then Suspend(p.state, MAX_AUTO_SELL_SIGNAL_ATTEMPTS) else Restore(p.state)
  {
    hide AfterSellSignal, Sends;
    FailedSignalsOnlyCount(p, signals);
  }

  /**
   * After any number of failed signals from the fifth on, with the position suspended, a price at the stop-loss
   * still raises a stop-loss signal, as if nothing had happened, unless the position was opened to follow.
   */
  lemma SuspendedPositionStillSells(p: PositionData, signals: seq<Signal>, price: real, now: nat)
    requires p.state.Active? && p.entryPrice > 0.0 && p.sellAttempts == 0
    requires MAX_AUTO_SELL_SIGNAL_ATTEMPTS <= |signals| < TWO_32 && forall s | s in signals :: Fails(p, s)
    ensures var q := Apply(AfterSignals(p, signals), Tick(price));
      && AttemptsExhausted(q) && q.state.Active?
      && (CheckExit(q, now) == Some(StopLoss) <==>
            !p.rules.followSell && price <= p.entryPrice * (1.0 - p.rules.stopLoss / 100.0))
  {
    FailedSignalsOnlyCount(p, signals);
    hide AfterSignals, Fails, CheckExit;
    var q := Apply(AfterSignals(p, signals), Tick(price));
    if p.rules.followSell {
      NoStopForFollowers(q, now);
    } else {
      StopAndProfitInPrices(q, now);
    }
  }

  lemma NoStopForFollowers(p: PositionData, now: nat)
    requires p.rules.followSell
    ensures CheckExit(p, now) != Some(StopLoss)
  {
  }

  /** Signals that find nothing in the account only count, and the fifth in a row fails the position for good. */
  lemma {:induction false} EmptySignalsFailAtFifth(p: PositionData, signals: seq<Signal>)
    requires p.zeroSkips == 0 && p.state != Failed && |signals| < TWO_32
    requires forall s | s in signals :: s.env.hasSnapshot && s.env.balance == 0
    ensures var q := AfterSignals(p, signals);
      q == p.(state := if |signals| >= 5 then Failed else p.state, zeroSkips := |signals|)
    decreases |signals|
  {
    if signals != [] {
      var init, last := signals[..|signals| - 1], signals[|signals| - 1];
      EmptySignalsFailAtFifth(p, init);
      assert last in signals;
    }
  }

  // ---- Who still sends automatic signals ----

  /** A followed wallet has sold: what the main loop asks of our position, if its group follows sells by now. */
  predicate FollowSignal(p: PositionData, groupFollows: bool)
  {
    groupFollows && CanSell(p) && !AttemptsExhausted(p)
  }

  /** Market prices as the monitor sees them; it passes over prices that are not positive. */
  function Ticks(prices: seq<real>): seq<Operation>
  {
    seq(|prices|, i requires 0 <= i < |prices| => Tick(prices[i]))
  }

  ghost predicate AllPositive(prices: seq<real>)
  {
    forall i | 0 <= i < |prices| :: prices[i] > 0.0
  }

  /** Neither a followed wallet nor the monitor asks for a sell at this moment. */
  predicate NoSignal(p: PositionData, groupFollows: bool, now: nat)
  {
    !FollowSignal(p, groupFollows) && CheckExit(p, now) == None
  }

  /** No automatic signal will be sent, whatever the market does. */
  ghost predicate Silent(p: PositionData, groupFollows: bool)
  {
    forall prices, now | AllPositive(prices) :: NoSignal(Run(p, Ticks(prices)), groupFollows, now)
  }

  /** No percentage rule can fire without a basis to compute percentages of. */
  predicate NoBasis(p: PositionData)
  {
    p.entryPrice <= 0.0 && p.rules.stopLoss > 0.0 && p.rules.takeProfit > 0.0
  }

  /** Exactly when a position gets no automatic signal at any price. */
  predicate Muted(p: PositionData, groupFollows: bool)
  {
    && (CanSell(p) && (groupFollows || p.rules.maxHold > 0) ==> AttemptsExhausted(p))
    && (p.state.Active? && !p.rules.followSell ==> NoBasis(p))
  }

  lemma {:induction false} TicksOnlyMovePrices(p: PositionData, prices: seq<real>)
    ensures var q := Run(p, Ticks(prices));
      q == p.(currentPrice := q.currentPrice, highestPrice := q.highestPrice)
    decreases |prices|
  {
    if prices != [] {
      var init := prices[..|prices| - 1];
      TicksOnlyMovePrices(p, init);
      assert Ticks(prices)[..|prices| - 1] == Ticks(init);
    }
  }

  lemma MutedGivesNoSignal(p: PositionData, groupFollows: bool, now: nat)
    requires Muted(p, groupFollows)
    ensures NoSignal(p, groupFollows, now)
  {
  }

  /** A price that raises a signal for an active position with an entry price; no history is needed. */
  function LoudPrice(p: PositionData): real
  {
    if p.entryPrice <= 0.0 then 1.0
    else if p.rules.takeProfit >= 0.0 then p.entryPrice * (1.0 + p.rules.takeProfit / 100.0)
    else p.entryPrice
  }

  lemma AtLeast(whole: real, percent: real)
    requires whole > 0.0
    ensures percent >= 0.0 ==> whole * (1.0 + percent / 100.0) > 0.0
    ensures percent < 0.0 ==> whole >= whole * (1.0 + percent / 100.0)
  {
    assert whole * (1.0 + percent / 100.0) == whole + whole * (percent / 100.0);
    ScaleIff(percent / 100.0, 0.0, whole);
    ScaleIff(0.0, percent / 100.0, whole);
  }

  lemma LoudPriceRaisesSignal(p: PositionData, now: nat)
    requires p.state.Active? && !p.rules.followSell && !NoBasis(p)
    ensures LoudPrice(p) > 0.0 && CheckExit(Apply(p, Tick(LoudPrice(p))), now) != None
  {
    var q := Apply(p, Tick(LoudPrice(p)));
    if p.entryPrice > 0.0 {
      AtLeast(p.entryPrice, p.rules.takeProfit);
      if !LifetimeOver(q, now) {
        StopAndProfitInPrices(q, now);
      }
    } else {
      assert PnlPercent(q) == 0.0;
    }
  }

  lemma UnmutedGetsSignal(p: PositionData, groupFollows: bool)
    requires !Muted(p, groupFollows)
    ensures exists prices, now :: AllPositive(prices) && !NoSignal(Run(p, Ticks(prices)), groupFollows, now)
  {
    if CanSell(p) && (groupFollows || p.rules.maxHold > 0) && !AttemptsExhausted(p) {
      assert Run(p, Ticks([])) == p;
      assert !NoSignal(p, groupFollows, p.createdAt + p.rules.maxHold);
      assert AllPositive([]);
    } else {
      var price := LoudPrice(p);
      LoudPriceRaisesSignal(p, 0);
      assert Ticks([price]) == [Tick(price)];
      assert Run(p, [Tick(price)]) == Apply(Run(p, []), Tick(price));
      assert AllPositive([price]) && !NoSignal(Run(p, Ticks([price])), groupFollows, 0);
    }
  }

  /** Which positions, in whatever state, get no automatic signal at any price and time. */
  lemma SilentIff(p: PositionData, groupFollows: bool)
    ensures Silent(p, groupFollows) <==> Muted(p, groupFollows)
  {
    hide NoSignal, Run, Muted;
    if Muted(p, groupFollows) {
      forall prices, now | AllPositive(prices)
        ensures NoSignal(Run(p, Ticks(prices)), groupFollows, now)
      {
        TicksOnlyMovePrices(p, prices);
        MutedIgnoresPrices(p, Run(p, Ticks(prices)), groupFollows);
        MutedGivesNoSignal(Run(p, Ticks(prices)), groupFollows, now);
      }
    } else {
      UnmutedGetsSignal(p, groupFollows);
    }
  }

  lemma MutedIgnoresPrices(p: PositionData, q: PositionData, groupFollows: bool)
    requires q == p.(currentPrice := q.currentPrice, highestPrice := q.highestPrice)
    ensures Muted(q, groupFollows) == Muted(p, groupFollows)
  {
  }

  /**
   * Suspension is a stop exactly for the positions opened to follow: after five failures or more these get no
   * automatic signal any more, whereas any other active position with an entry price still does.
   */
  lemma SuspensionStopsFollowersOnly(p: PositionData, signals: seq<Signal>, groupFollows: bool)
    requires p.state.Active? && p.entryPrice > 0.0 && p.sellAttempts == 0
    requires MAX_AUTO_SELL_SIGNAL_ATTEMPTS <= |signals| < TWO_32 && forall s | s in signals :: Fails(p, s)
    ensures Silent(AfterSignals(p, signals), groupFollows) <==> p.rules.followSell
  {
    hide Silent;
    FailedSignalsOnlyCount(p, signals);
    SilentIff(AfterSignals(p, signals), groupFollows);
  }

  /** The only suspensions there are. */
  predicate SuspendsAtCap(op: Operation)
  {
    op.Suspend? ==> op.maxAttempts == MAX_AUTO_SELL_SIGNAL_ATTEMPTS
  }

  lemma {:induction false} ExhaustedStays(p: PositionData, ops: seq<Operation>)
    requires AttemptsExhausted(p) && p.sellAttempts + |ops| < TWO_32 && forall op | op in ops :: SuspendsAtCap(op)
    ensures p.sellAttempts <= Run(p, ops).sellAttempts <= p.sellAttempts + |ops| && Run(p, ops).rules == p.rules
    decreases |ops|
  {
    if ops != [] {
      var q, last := Run(p, ops[..|ops| - 1]), ops[|ops| - 1];
      ExhaustedStays(p, ops[..|ops| - 1]);
      assert SuspendsAtCap(last) && WrappingInc32(q.sellAttempts) == q.sellAttempts + 1;
    }
  }

  /** A suspended follower is never signalled again, whatever is done to it: only a manual sell can still sell it. */
  lemma SuspendedFollowerIsNeverSignalled(p: PositionData, signals: seq<Signal>, ops: seq<Operation>, groupFollows: bool, now: nat)
    requires p.rules.followSell && p.sellAttempts == 0
    requires MAX_AUTO_SELL_SIGNAL_ATTEMPTS <= |signals| && forall s | s in signals :: Fails(p, s)
    requires |signals| + |ops| < TWO_32 && forall op | op in ops :: SuspendsAtCap(op)
    ensures NoSignal(Run(AfterSignals(p, signals), ops), groupFollows, now)
  {
    FailedSignalsOnlyCount(p, signals);
    ExhaustedStays(AfterSignals(p, signals), ops);
  }
}
