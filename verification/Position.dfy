/** A held token position: its state machine, its price tracking and the automatic exit rules. */
module Positions {
  import opened Common

  datatype PositionState = Pending | Submitted | Confirming | Active | Selling | Closed | Failed

  datatype SellReason = TakeProfit | StopLoss | TrailingStop | MaxLifetime | Manual | FollowSell

  const MAX_AUTO_SELL_SIGNAL_ATTEMPTS: nat := 5
  const MAX_ZERO_BALANCE_SKIPS: nat := 5

  /** The part of a copy group that the exit rules read; percentages, and a holding time in seconds. */
  datatype ExitRules = ExitRules(maxHold: nat, stopLoss: real, takeProfit: real, trailing: real, followSell: bool)

  /** The value of a position; prices are SOL per token, times are seconds. */
  datatype PositionData = PositionData(
    rules: ExitRules,
    state: PositionState,
    entrySol: nat,
    tokenAmount: nat,
    entryPrice: real,
    highestPrice: real,
    currentPrice: real,
    createdAt: nat,
    confirmedAt: Option<nat>,
    buySignature: string,
    sellSignature: Option<string>,
    preBuyBalance: nat,
    sellAttempts: nat,
    zeroSkips: nat,
    partialSells: nat,
    lastPartialAt: Option<nat>)

  predicate Sellable(state: PositionState)
  {
    state.Active? || state.Confirming? || state.Submitted?
  }

  predicate Terminal(state: PositionState)
  {
    state.Closed? || state.Failed?
  }

  function NewPosition(rules: ExitRules, entrySol: nat, entryPrice: real, preBuyBalance: nat, now: nat): PositionData
  {
    PositionData(rules, Pending, entrySol, 0, entryPrice, entryPrice, entryPrice, now, None, "", None, preBuyBalance, 0, 0, 0, None)
  }

  // ---- Every operation a position offers, as one step function on its value ----

  datatype Operation =
    | Submit(signature: string)
    | AwaitConfirmation
    | Activate(amount: nat, curvePrice: Option<real>, at: nat)
    | StartSelling
    | Close(signature: string)
    | Fail
    | Revert
    | Restore(previous: PositionState)
    | Suspend(previous: PositionState, maxAttempts: nat)
    | SellPart(sold: nat, at: nat)
    | SkipZeroBalance
    | Tick(price: real)
    | CorrectEntry(price: real)

  /** Whether the operation takes effect in this position (what the original reports as `true`). */
  predicate Accepted(p: PositionData, op: Operation)
  {
    match op
    case Submit(_) => p.state.Pending?
    case AwaitConfirmation => p.state.Submitted?
    case Activate(_, _, _) => p.state.Confirming? || p.state.Submitted?
    case StartSelling => Sellable(p.state)
    case Close(_) => p.state.Selling?
    case Revert => p.state.Selling?
    case SellPart(sold, _) => 0 < sold <= p.tokenAmount
    case _ => true
  }

  /** The price per token at which the tokens received cost what was paid, at six decimals and nine. */
  lemma PaidPerToken(lamports: nat, amount: nat)
    requires amount > 0
    ensures var paid := (lamports as real / 1000000000.0) / (amount as real / 1000000.0);
      paid * amount as real == lamports as real / 1000.0 && (lamports > 0 ==> paid > 0.0)
  {
    var sol, tokens := lamports as real / 1000000000.0, amount as real / 1000000.0;
    var paid := sol / tokens;
    assert paid * tokens == sol;
    assert paid * (tokens * 1000000.0) == (paid * tokens) * 1000000.0;
  }

  /** Entry price on activation: the curve price if positive, else lamports spent per token received. */
  function ActivationPrice(p: PositionData, amount: nat, curvePrice: Option<real>): (price: real)
    requires amount > 0
    ensures price >= 0.0
    ensures (curvePrice.Some? && price == curvePrice.value > 0.0) || price * amount as real == p.entrySol as real / 1000.0
  {
    PaidPerToken(p.entrySol, amount);
    if curvePrice.Some? && curvePrice.value > 0.0 then curvePrice.value
    else if p.entrySol > 0 then (p.entrySol as real / 1000000000.0) / (amount as real / 1000000.0)
    else 0.0
  }

  function Apply(p: PositionData, op: Operation): PositionData
  {
    if !Accepted(p, op) then p else
    match op
    case Submit(signature) => p.(buySignature := signature, state := Submitted)
    case AwaitConfirmation => p.(state := Confirming)
    case Activate(amount, curvePrice, at) =>
      var q := p.(tokenAmount := amount, state := Active, confirmedAt := Some(at));
      if amount == 0 then q
      else
        var entry := ActivationPrice(p, amount, curvePrice);
        q.(entryPrice := entry, highestPrice := entry, currentPrice := entry)
    case StartSelling => p.(state := Selling, sellAttempts := WrappingInc32(p.sellAttempts), zeroSkips := 0)
    case Close(signature) => p.(state := Closed, sellSignature := Some(signature))
    case Fail => p.(state := Failed)
    case Revert => p.(state := Active)
    case Restore(previous) => p.(state := previous)
    case Suspend(previous, maxAttempts) => p.(state := previous, sellAttempts := Max(p.sellAttempts, maxAttempts))
    case SellPart(sold, at) =>
      p.(tokenAmount := p.tokenAmount - sold, partialSells := SaturatingInc32(p.partialSells),
         lastPartialAt := Some(at), highestPrice := p.currentPrice, state := Active)
    case SkipZeroBalance => p.(zeroSkips := SaturatingInc32(p.zeroSkips))
    case Tick(price) => p.(currentPrice := price, highestPrice := MaxReal(p.highestPrice, price))
    case CorrectEntry(price) => p.(entryPrice := price, highestPrice := MaxReal(p.highestPrice, price))
  }

  // ---- Queries and exit rules ----

  function PnlPercent(p: PositionData): real
  {
    if p.entryPrice > 0.0 then ((p.currentPrice - p.entryPrice) / p.entryPrice) * 100.0 else 0.0
  }

  function DrawdownPercent(p: PositionData): real
  {
    if p.highestPrice > 0.0 then ((p.highestPrice - p.currentPrice) / p.highestPrice) * 100.0 else 0.0
  }

  predicate CanSell(p: PositionData)
  {
    p.state.Active? || p.state.Confirming?
  }

  predicate AttemptsExhausted(p: PositionData)
  {
    p.sellAttempts >= MAX_AUTO_SELL_SIGNAL_ATTEMPTS
  }

  predicate LifetimeOver(p: PositionData, now: nat)
  {
    p.rules.maxHold > 0 && Elapsed(now, p.createdAt) >= p.rules.maxHold && CanSell(p) && !AttemptsExhausted(p)
  }

  /** Which automatic sell, if any, the rules ask for now; the order of the rules decides ties. */
  function CheckExit(p: PositionData, now: nat): Option<SellReason>
  {
    var pnl := PnlPercent(p);
    if LifetimeOver(p, now) then Some(MaxLifetime)
    else if p.rules.followSell then None
    else if p.state.Active? && pnl <= -p.rules.stopLoss then Some(StopLoss)
    else if p.state.Active? && pnl >= p.rules.takeProfit then Some(TakeProfit)
    else if p.state.Active? && p.rules.trailing > 0.0 && p.highestPrice > 0.0 && pnl > 0.0
            && DrawdownPercent(p) >= p.rules.trailing then Some(TrailingStop)
    else None
  }

  // ---- The mutable position ----

  /** The position as the bot keeps it: one object whose methods update its fields. */
  class Position {
    const rules: ExitRules
    const entrySol: nat
    const createdAt: nat
    const preBuyBalance: nat
    var state: PositionState
    var tokenAmount: nat
    var entryPrice: real
    var highestPrice: real
    var currentPrice: real
    var confirmedAt: Option<nat>
    var buySignature: string
    var sellSignature: Option<string>
    var sellAttempts: nat
    var zeroSkips: nat
    var partialSells: nat
    var lastPartialAt: Option<nat>

    function View(): PositionData
      reads this
    {
      PositionData(rules, state, entrySol, tokenAmount, entryPrice, highestPrice, currentPrice, createdAt, confirmedAt,
                   buySignature, sellSignature, preBuyBalance, sellAttempts, zeroSkips, partialSells, lastPartialAt)
    }

    constructor (rules: ExitRules, entrySol: nat, entryPrice: real, preBuyBalance: nat, now: nat)
      ensures View() == NewPosition(rules, entrySol, entryPrice, preBuyBalance, now)
    {
      this.rules, this.entrySol, this.createdAt, this.preBuyBalance := rules, entrySol, now, preBuyBalance;
      state, tokenAmount := Pending, 0;
      this.entryPrice, highestPrice, currentPrice := entryPrice, entryPrice, entryPrice;
      confirmedAt, buySignature, sellSignature := None, "", None;
      sellAttempts, zeroSkips, partialSells, lastPartialAt := 0, 0, 0, None;
    }

    /** Fills in an estimate only where no amount is known yet. */
    method SetTokenAmountEstimate(amount: nat)
      modifies this
      ensures View() == old(View()).(tokenAmount := if old(tokenAmount) == 0 then amount else old(tokenAmount))
    {
      if tokenAmount == 0 && amount > 0 {
        tokenAmount := amount;
      }
    }

    method MarkSubmitted(signature: string) returns (ok: bool)
      modifies this
      ensures View() == Apply(old(View()), Submit(signature)) && ok == Accepted(old(View()), Submit(signature))
    {
      if state != Pending {
        return false;
      }
      buySignature := signature;
      state := Submitted;
      return true;
    }

    method MarkConfirming() returns (ok: bool)
      modifies this
      ensures View() == Apply(old(View()), AwaitConfirmation) && ok == Accepted(old(View()), AwaitConfirmation)
    {
      if state != Submitted {
        return false;
      }
      state := Confirming;
      return true;
    }

    method MarkActive(amount: nat, curvePrice: Option<real>, now: nat) returns (ok: bool)
      modifies this
      ensures View() == Apply(old(View()), Activate(amount, curvePrice, now))
      ensures ok == Accepted(old(View()), Activate(amount, curvePrice, now))
    {
      if state != Confirming && state != Submitted {
        return false;
      }
      tokenAmount := amount;
      if amount > 0 {
        var displayTokens := amount as real / 1000000.0;
        entryPrice :=
          if curvePrice.Some? && curvePrice.value > 0.0 then curvePrice.value
          else if entrySol > 0 then (entrySol as real / 1000000000.0) / displayTokens
          else 0.0;
        highestPrice := entryPrice;
        currentPrice := entryPrice;
      }
      state := Active;
      confirmedAt := Some(now);
      return true;
    }

    method MarkSelling() returns (ok: bool)
      modifies this
      ensures View() == Apply(old(View()), StartSelling) && ok == Accepted(old(View()), StartSelling)
    {
      if state != Active && state != Confirming && state != Submitted {
        return false;
      }
      state := Selling;
      sellAttempts := (sellAttempts + 1) % TWO_32;
      zeroSkips := 0;
      return true;
    }

    method MarkClosed(signature: string) returns (ok: bool)
      modifies this
      ensures View() == Apply(old(View()), Close(signature)) && ok == Accepted(old(View()), Close(signature))
    {
      if state != Selling {
        return false;
      }
      sellSignature := Some(signature);
      state := Closed;
      return true;
    }

    method MarkFailed() returns (ok: bool)
      modifies this
      ensures View() == Apply(old(View()), Fail) && ok
    {
      state := Failed;
      return true;
    }

    method RevertToActive() returns (ok: bool)
      modifies this
      ensures View() == Apply(old(View()), Revert) && ok == Accepted(old(View()), Revert)
    {
      if state != Selling {
        return false;
      }
      state := Active;
      return true;
    }

    method RestoreAfterSellAttempt(previous: PositionState)
      modifies this
      ensures View() == Apply(old(View()), Restore(previous))
    {
      state := previous;
    }

    method SuspendAutoSell(previous: PositionState, maxAttempts: nat)
      modifies this
      ensures View() == Apply(old(View()), Suspend(previous, maxAttempts))
    {
      state := previous;
      if sellAttempts < maxAttempts {
        sellAttempts := maxAttempts;
      }
    }

    method ApplyPartialSell(sold: nat, now: nat) returns (ok: bool)
      modifies this
      ensures View() == Apply(old(View()), SellPart(sold, now)) && ok == Accepted(old(View()), SellPart(sold, now))
    {
      if sold == 0 || sold > tokenAmount {
        return false;
      }
      tokenAmount := tokenAmount - sold;
      partialSells := SaturatingInc32(partialSells);
      lastPartialAt := Some(now);
      highestPrice := currentPrice;
      state := Active;
      return true;
    }

    method RecordZeroBalanceSellSkip() returns (skips: nat)
      modifies this
      ensures View() == Apply(old(View()), SkipZeroBalance) && skips == zeroSkips
    {
      zeroSkips := SaturatingInc32(zeroSkips);
      return zeroSkips;
    }

    /** Records a market price; the answer says whether it is a new high. */
    method UpdatePrice(price: real) returns (newHigh: bool)
      modifies this
      ensures View() == Apply(old(View()), Tick(price)) && newHigh == (highestPrice > old(highestPrice))
    {
      currentPrice := price;
      if price > highestPrice {
        highestPrice := price;
        return true;
      }
      return false;
    }

    method UpdateEntryPrice(price: real)
      modifies this
      ensures View() == Apply(old(View()), CorrectEntry(price))
    {
      entryPrice := price;
      if highestPrice < price {
        highestPrice := price;
      }
    }
  }
}
