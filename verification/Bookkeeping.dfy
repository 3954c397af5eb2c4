/** What a position holds, and what it paid per token, over any history of operations. */
module Bookkeeping {
  import opened Common
  import opened Positions
  import opened PriceHistory

  /** What a position is opened with stays with it over every history; it begins with one price and without tokens. */
  lemma {:induction false} OpeningStays(rules: ExitRules, lamports: nat, price: real, balance: nat, created: nat, ops: seq<Operation>)
    ensures var p := NewPosition(rules, lamports, price, balance, created);
      var q := Run(p, ops);
      && q.rules == rules && q.entrySol == lamports && q.preBuyBalance == balance && q.createdAt == created
      && (ops == [] ==> q.entryPrice == q.highestPrice == q.currentPrice == price && q.tokenAmount == 0 && q.state == Pending)
    decreases |ops|
  {
    if ops != [] {
      OpeningStays(rules, lamports, price, balance, created, ops[..|ops| - 1]);
    }
  }

  /** The amount that the last activation to go through confirmed; what the position began with, if there was none. */
  function Confirmed(p: PositionData, ops: seq<Operation>): nat
    decreases |ops|
  {
    if ops == [] then p.tokenAmount else
    var before, last := ops[..|ops| - 1], ops[|ops| - 1];
    if last.Activate? && Accepted(Run(p, before), last) then last.amount else Confirmed(p, before)
  }

  /** The tokens sold by partial sells that went through since. */
  function SoldSince(p: PositionData, ops: seq<Operation>): nat
    decreases |ops|
  {
    if ops == [] then 0 else
    var before, last := ops[..|ops| - 1], ops[|ops| - 1];
    if last.Activate? && Accepted(Run(p, before), last) then 0
    else SoldSince(p, before) + if last.SellPart? && Accepted(Run(p, before), last) then last.sold else 0
  }

  /** Holding and sales add up to the confirmed amount, and nothing is ever sold twice. */
  lemma {:induction false} HoldingAddsUp(p: PositionData, ops: seq<Operation>)
    ensures Run(p, ops).tokenAmount + SoldSince(p, ops) == Confirmed(p, ops)
    decreases |ops|
  {
    if ops != [] {
      HoldingAddsUp(p, ops[..|ops| - 1]);
    }
  }

  /** The price that the last correction, or the last activation with tokens, whichever came later, gives the position. */
  ghost predicate IsEntry(p: PositionData, ops: seq<Operation>, price: real)
    decreases |ops|
  {
    if ops == [] then price == p.entryPrice else
    var before, last := ops[..|ops| - 1], ops[|ops| - 1];
    if last.CorrectEntry? then price == last.price
    else if last.Activate? && last.amount > 0 && Accepted(Run(p, before), last) then
      if last.curvePrice.Some? && last.curvePrice.value > 0.0 then price == last.curvePrice.value
      else price * last.amount as real == p.entrySol as real / 1000.0
    else IsEntry(p, before, price)
  }

  lemma {:induction false} EntryPriceIsLatest(p: PositionData, ops: seq<Operation>)
    ensures IsEntry(p, ops, Run(p, ops).entryPrice) && Run(p, ops).entrySol == p.entrySol
    decreases |ops|
  {
    if ops != [] {
      EntryPriceIsLatest(p, ops[..|ops| - 1]);
    }
  }

  /** There is only one such price. */
  lemma {:induction false} EntryPriceIsUnique(p: PositionData, ops: seq<Operation>, a: real, b: real)
    requires IsEntry(p, ops, a) && IsEntry(p, ops, b)
    ensures a == b
    decreases |ops|
  {
    if ops != [] {
      var before, last := ops[..|ops| - 1], ops[|ops| - 1];
      if last.Activate? && last.amount > 0 && Accepted(Run(p, before), last) {
        if !(last.curvePrice.Some? && last.curvePrice.value > 0.0) {
          SamePrice(a, b, last.amount);
        }
      } else if !last.CorrectEntry? {
        EntryPriceIsUnique(p, before, a, b);
      }
    }
  }

  lemma SamePrice(a: real, b: real, amount: nat)
    requires amount > 0 && a * amount as real == b * amount as real
    ensures a == b
  {
    assert (a - b) * amount as real == 0.0;
  }

  // ---- Signatures, times and counters ----

  /** The last operation of the wanted kind to go through. */
  function LastAccepted(p: PositionData, ops: seq<Operation>, wanted: Operation -> bool): Option<Operation>
    decreases |ops|
  {
    if ops == [] then None else
    var before, last := ops[..|ops| - 1], ops[|ops| - 1];
    if wanted(last) && Accepted(Run(p, before), last) then Some(last) else LastAccepted(p, before, wanted)
  }

  /** How many operations of the wanted kind went through since the last one of the other kind did. */
  function CountSince(p: PositionData, ops: seq<Operation>, wanted: Operation -> bool, reset: Operation -> bool): nat
    decreases |ops|
  {
    if ops == [] then 0 else
    var before, last := ops[..|ops| - 1], ops[|ops| - 1];
    if !Accepted(Run(p, before), last) then CountSince(p, before, wanted, reset)
    else if reset(last) then 0
    else CountSince(p, before, wanted, reset) + if wanted(last) then 1 else 0
  }

  /** Signatures are those of the last operation of their kind to go through. */
  lemma {:induction false} SignaturesAreLatest(p: PositionData, ops: seq<Operation>)
    ensures var q := Run(p, ops);
      && (match LastAccepted(p, ops, (op: Operation) => op.Submit?)
          case None => q.buySignature == p.buySignature
          case Some(op) => op.Submit? && q.buySignature == op.signature)
      && (match LastAccepted(p, ops, (op: Operation) => op.Close?)
          case None => q.sellSignature == p.sellSignature
          case Some(op) => op.Close? && q.sellSignature == Some(op.signature))
    decreases |ops|
  {
    if ops != [] {
      SignaturesAreLatest(p, ops[..|ops| - 1]);
    }
  }

  /** And so are the times. */
  lemma {:induction false} TimesAreLatest(p: PositionData, ops: seq<Operation>)
    ensures var q := Run(p, ops);
      && (match LastAccepted(p, ops, (op: Operation) => op.Activate?)
          case None => q.confirmedAt == p.confirmedAt
          case Some(op) => op.Activate? && q.confirmedAt == Some(op.at))
      && (match LastAccepted(p, ops, (op: Operation) => op.SellPart?)
          case None => q.lastPartialAt == p.lastPartialAt
          case Some(op) => op.SellPart? && q.lastPartialAt == Some(op.at))
    decreases |ops|
  {
    if ops != [] {
      TimesAreLatest(p, ops[..|ops| - 1]);
    }
  }

  /** A new position counts its partial sells, as long as they fit. */
  lemma {:induction false} PartialSellsCount(p: PositionData, ops: seq<Operation>)
    requires p.partialSells == 0 && |ops| < TWO_32
    ensures Run(p, ops).partialSells == CountSince(p, ops, (op: Operation) => op.SellPart?, (op: Operation) => false) <= |ops|
    decreases |ops|
  {
    if ops != [] {
      PartialSellsCount(p, ops[..|ops| - 1]);
    }
  }

  /** The skipped sells since the last claim. */
  lemma {:induction false} SkipsCount(p: PositionData, ops: seq<Operation>)
    requires p.zeroSkips == 0 && |ops| < TWO_32
    ensures Run(p, ops).zeroSkips
      == CountSince(p, ops, (op: Operation) => op.SkipZeroBalance?, (op: Operation) => op.StartSelling?) <= |ops|
    decreases |ops|
  {
    if ops != [] {
      SkipsCount(p, ops[..|ops| - 1]);
    }
  }

  /** And, unless it is suspended, its claims. */
  lemma {:induction false} ClaimsCount(p: PositionData, ops: seq<Operation>)
    requires p.sellAttempts == 0 && |ops| < TWO_32 && forall op | op in ops :: !op.Suspend?
    ensures Run(p, ops).sellAttempts == CountSince(p, ops, (op: Operation) => op.StartSelling?, (op: Operation) => false) <= |ops|
    decreases |ops|
  {
    if ops != [] {
      ClaimsCount(p, ops[..|ops| - 1]);
    }
  }

  // ---- The order of the operations ----

  /** Operations that leave the position in a state of their own choosing. */
  predicate Moves(op: Operation)
  {
    !op.SkipZeroBalance? && !op.Tick? && !op.CorrectEntry?
  }

  /** The states that a restored or suspended position may be given back. */
  function GivenBack(op: Operation): Option<PositionState>
  {
    if op.Restore? || op.Suspend? then Some(op.previous) else None
  }

  /** What the last move of a new position must have been for an operation to go through. */
  predicate MayFollow(last: Option<Operation>, op: Operation)
  {
    var back := if last.Some? then GivenBack(last.value) else None;
    match op
    case Submit(_) => last.None? || back == Some(Pending)
    case AwaitConfirmation => last.Some? && (last.value.Submit? || back == Some(Submitted))
    case Activate(_, _, _) =>
      last.Some? && (last.value.Submit? || last.value.AwaitConfirmation? || back == Some(Submitted) || back == Some(Confirming))
    case StartSelling =>
      && last.Some?
      && (last.value.Submit? || last.value.AwaitConfirmation? || last.value.Activate? || last.value.Revert? || last.value.SellPart?
          || back == Some(Submitted) || back == Some(Confirming) || back == Some(Active))
    case Close(_) => last.Some? && (last.value.StartSelling? || back == Some(Selling))
    case Revert => last.Some? && (last.value.StartSelling? || back == Some(Selling))
    case _ => true
  }

  /**
   * Over every history of a new position whether an operation goes through depends on the last move alone, except for
   * a partial sell, for which only the holding matters.
   */
  lemma GoesThroughIff(p: PositionData, ops: seq<Operation>, op: Operation)
    requires p.state == Pending && !op.SellPart?
    ensures Accepted(Run(p, ops), op) <==> MayFollow(LastAccepted(p, ops, Moves), op)
  {
    StateIsLastMove(p, ops);
  }

  /** A partial sell goes through exactly for some but no more than what was confirmed and not sold since. */
  lemma PartialGoesThroughIff(p: PositionData, ops: seq<Operation>, sold: nat, at: nat)
    ensures Accepted(Run(p, ops), SellPart(sold, at)) <==> 0 < sold <= Confirmed(p, ops) - SoldSince(p, ops)
  {
    HoldingAddsUp(p, ops);
  }

  function StateOf(last: Option<Operation>): PositionState
  {
    match last
    case None => Pending
    case Some(Submit(_)) => Submitted
    case Some(AwaitConfirmation) => Confirming
    case Some(StartSelling) => Selling
    case Some(Close(_)) => Closed
    case Some(Fail) => Failed
    case Some(Restore(previous)) => previous
    case Some(Suspend(previous, _)) => previous
    case Some(_) => Active
  }

  lemma {:induction false} StateIsLastMove(p: PositionData, ops: seq<Operation>)
    requires p.state == Pending
    ensures Run(p, ops).state == StateOf(LastAccepted(p, ops, Moves))
    ensures LastAccepted(p, ops, Moves).Some? ==> Moves(LastAccepted(p, ops, Moves).value)
    decreases |ops|
  {
    if ops != [] {
      StateIsLastMove(p, ops[..|ops| - 1]);
    }
  }
}
