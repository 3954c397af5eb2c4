/** The buy confirmer: polls balances and the signature's status, then settles the position one way or the other. */
module Confirm {
  import opened Common
  import opened Positions
  import opened Manager
  import CurveQuote
  import PriceHistory
  import Wire

  datatype Status = Unknown | Landed | Rejected

  /** One poll: the cached balance before and after the status query, that query's answer and the queried balance. */
  datatype Poll = Poll(cacheBefore: Option<u64>, status: Status, cacheAfter: Option<u64>, queried: Option<u64>)

  /** A line of the transaction's list of balances afterwards. */
  datatype ListedBalance = ListedBalance(owner: Pubkey, mint: Pubkey, amount: u64)

  datatype Verdict = RejectedOnChain | Filled(balance: u64) | NothingReceived | TimedOut

  predicate Above(balance: Option<u64>, preBuy: u64)
  {
    balance.Some? && balance.value > preBuy
  }

  /** The first balance above the one before the buy that a poll comes across. */
  function Seen(p: Poll, preBuy: u64): (balance: Option<u64>)
    ensures balance.Some? ==> balance.value > preBuy && balance in {p.cacheBefore, p.cacheAfter, p.queried}
    ensures balance.None? <==> !Above(p.cacheBefore, preBuy) && !Above(p.cacheAfter, preBuy) && !Above(p.queried, preBuy)
  {
    if Above(p.cacheBefore, preBuy) then p.cacheBefore
    else if Above(p.cacheAfter, preBuy) then p.cacheAfter
    else if Above(p.queried, preBuy) then p.queried
    else None
  }

  predicate LandedBefore(polls: seq<Poll>, k: nat)
  {
    exists j | 0 <= j < k && j < |polls| :: polls[j].status == Landed
  }

  /** The status is asked for only until the transaction has been seen to land. */
  predicate RejectedAt(polls: seq<Poll>, k: nat)
    requires k < |polls|
  {
    polls[k].status == Rejected && !LandedBefore(polls, k)
  }

  predicate Decides(polls: seq<Poll>, k: nat, preBuy: u64)
    requires k < |polls|
  {
    Seen(polls[k], preBuy).Some? || RejectedAt(polls, k)
  }

  predicate Undecided(polls: seq<Poll>, k: nat, preBuy: u64)
  {
    forall j: nat | j < k && j < |polls| :: !Decides(polls, j, preBuy)
  }

  predicate Ours(b: ListedBalance, user: Pubkey, preBuy: u64)
  {
    b.owner == user && b.amount > preBuy
  }

  /** The first listed balance of ours above the one before the buy, whatever its token. */
  function FirstOurs(listed: seq<ListedBalance>, user: Pubkey, preBuy: u64): (k: nat)
    ensures k <= |listed| && (k < |listed| ==> Ours(listed[k], user, preBuy))
    ensures forall j | 0 <= j < k :: !Ours(listed[j], user, preBuy)
  {
    if listed == [] || Ours(listed[0], user, preBuy) then 0 else 1 + FirstOurs(listed[1..], user, preBuy)
  }

  /** What the polls and, if they leave the amount open, the transaction's balances amount to. */
  ghost predicate IsVerdict(v: Verdict, polls: seq<Poll>, listed: seq<ListedBalance>, user: Pubkey, preBuy: u64)
  {
    var found := FirstOurs(listed, user, preBuy);
    match v
    case RejectedOnChain =>
      exists k: nat :: k < |polls| && Undecided(polls, k, preBuy) && RejectedAt(polls, k)
    case Filled(balance) =>
      || (exists k: nat :: k < |polls| && Undecided(polls, k, preBuy) && !RejectedAt(polls, k) && Seen(polls[k], preBuy) == Some(balance))
      || (Undecided(polls, |polls|, preBuy) && LandedBefore(polls, |polls|) && found < |listed| && balance == listed[found].amount)
    case NothingReceived => Undecided(polls, |polls|, preBuy) && LandedBefore(polls, |polls|) && found == |listed|
    case TimedOut => Undecided(polls, |polls|, preBuy) && !LandedBefore(polls, |polls|)
  }

  /** The polls that fit in the ten-second window, then the transaction itself. */
  method Judge(polls: seq<Poll>, listed: seq<ListedBalance>, user: Pubkey, preBuy: u64) returns (v: Verdict)
    ensures IsVerdict(v, polls, listed, user, preBuy)
  {
    var signatureConfirmed, tokenBalance: u64 := false, 0;
    var i := 0;
    while i < |polls|
      invariant i <= |polls| && tokenBalance == 0
      invariant Undecided(polls, i, preBuy)
      invariant signatureConfirmed == LandedBefore(polls, i)
    {
      var p := polls[i];
      if tokenBalance == 0 && Above(p.cacheBefore, preBuy) {
        tokenBalance := p.cacheBefore.value;
      }
      if !signatureConfirmed {
        match p.status
        case Rejected => return RejectedOnChain;
        case Landed => signatureConfirmed := true;
        case Unknown =>
      }
      if tokenBalance == 0 && Above(p.cacheAfter, preBuy) {
        tokenBalance := p.cacheAfter.value;
      }
      if tokenBalance <= preBuy && Above(p.queried, preBuy) {
        tokenBalance := p.queried.value;
      }
      if tokenBalance > preBuy {
        assert Seen(p, preBuy) == Some(tokenBalance);
        return Filled(tokenBalance);
      }
      i := i + 1;
    }
    if !signatureConfirmed {
      return TimedOut;
    }
    var k := 0;
    while k < |listed| && !Ours(listed[k], user, preBuy)
      invariant k <= |listed| && forall j | 0 <= j < k :: !Ours(listed[j], user, preBuy)
    {
      k := k + 1;
    }
    v := if k < |listed| then Filled(listed[k].amount) else NothingReceived;
  }

  /** The polls and the list leave no choice of verdict. */
  lemma VerdictIsUnique(v: Verdict, w: Verdict, polls: seq<Poll>, listed: seq<ListedBalance>, user: Pubkey, preBuy: u64)
    requires IsVerdict(v, polls, listed, user, preBuy) && IsVerdict(w, polls, listed, user, preBuy)
    ensures v == w
  {
    hide Seen, RejectedAt, LandedBefore, FirstOurs;
    forall j: nat, k: nat | j < |polls| && k <= |polls| && Undecided(polls, j, preBuy) && Undecided(polls, k, preBuy)
      && Decides(polls, j, preBuy) && (k < |polls| ==> Decides(polls, k, preBuy))
      ensures j == k
    {
    }
    assert forall k: nat | k < |polls| && (Seen(polls[k], preBuy).Some? || RejectedAt(polls, k)) :: Decides(polls, k, preBuy);
  }

  /** A fill always rests on a balance that some poll saw, or the transaction listed for us, above the one before. */
  lemma FillWasObserved(balance: u64, polls: seq<Poll>, listed: seq<ListedBalance>, user: Pubkey, preBuy: u64)
    requires IsVerdict(Filled(balance), polls, listed, user, preBuy)
    ensures balance > preBuy
    ensures (exists p :: p in polls && Some(balance) in {p.cacheBefore, p.cacheAfter, p.queried})
      || (exists b :: b in listed && b.owner == user && b.amount == balance)
  {
  }

  /** The chain rejects the transaction in poll `k`, and no poll before has seen it land or a balance above. */
  predicate FirstNewsIsRejection(polls: seq<Poll>, k: nat, preBuy: u64)
  {
    && k < |polls| && polls[k].status == Rejected
    && (forall j | 0 <= j < k :: polls[j].status == Unknown)
    && (forall j | 0 <= j < k ::
          !Above(polls[j].cacheBefore, preBuy) && !Above(polls[j].cacheAfter, preBuy) && !Above(polls[j].queried, preBuy))
  }

  /** The buy counts as rejected exactly in that case. */
  lemma RejectedIff(polls: seq<Poll>, v: Verdict, listed: seq<ListedBalance>, user: Pubkey, preBuy: u64)
    requires IsVerdict(v, polls, listed, user, preBuy)
    ensures v == RejectedOnChain <==> exists k :: FirstNewsIsRejection(polls, k, preBuy)
  {
    if v == RejectedOnChain {
      var k: nat :| k < |polls| && Undecided(polls, k, preBuy) && RejectedAt(polls, k);
      forall j: nat | j < k
        ensures polls[j].status == Unknown && Seen(polls[j], preBuy).None?
      {
        assert !Decides(polls, j, preBuy);
        assert !LandedBefore(polls, j);
      }
      assert FirstNewsIsRejection(polls, k, preBuy);
    }
    if k: nat :| FirstNewsIsRejection(polls, k, preBuy) {
      assert Undecided(polls, k, preBuy) && RejectedAt(polls, k);
      assert IsVerdict(RejectedOnChain, polls, listed, user, preBuy);
      VerdictIsUnique(v, RejectedOnChain, polls, listed, user, preBuy);
    }
  }

  /** A rejection and a balance in the same poll: the rejection wins, provided the status was still being asked for. */
  lemma RejectionBeatsBalance(polls: seq<Poll>, k: nat, v: Verdict, listed: seq<ListedBalance>, user: Pubkey, preBuy: u64)
    requires k < |polls| && Undecided(polls, k, preBuy) && RejectedAt(polls, k)
    requires IsVerdict(v, polls, listed, user, preBuy)
    ensures v == RejectedOnChain
  {
    assert IsVerdict(RejectedOnChain, polls, listed, user, preBuy);
    VerdictIsUnique(v, RejectedOnChain, polls, listed, user, preBuy);
  }

  /** Within the deciding poll the earlier source is believed: the cache before the status query, then after it, then the query. */
  lemma EarlierSourceIsBelieved(polls: seq<Poll>, k: nat, v: Verdict, listed: seq<ListedBalance>, user: Pubkey, preBuy: u64)
    requires k < |polls| && Undecided(polls, k, preBuy) && !RejectedAt(polls, k)
    requires IsVerdict(v, polls, listed, user, preBuy)
    ensures Above(polls[k].cacheBefore, preBuy) ==> v == Filled(polls[k].cacheBefore.value)
    ensures !Above(polls[k].cacheBefore, preBuy) && Above(polls[k].cacheAfter, preBuy) ==> v == Filled(polls[k].cacheAfter.value)
    ensures !Above(polls[k].cacheBefore, preBuy) && !Above(polls[k].cacheAfter, preBuy) && Above(polls[k].queried, preBuy) ==>
      v == Filled(polls[k].queried.value)
  {
    var seen := Seen(polls[k], preBuy);
    if seen.Some? {
      assert IsVerdict(Filled(seen.value), polls, listed, user, preBuy);
      VerdictIsUnique(v, Filled(seen.value), polls, listed, user, preBuy);
    }
  }

  /**
   * The list is not searched by token.  It yields the bought token's balance exactly when every other balance of
   * ours above the threshold is listed after one of the bought token.
   */
  lemma DetailIsOfMintIff(listed: seq<ListedBalance>, user: Pubkey, mint: Pubkey, preBuy: u64)
    ensures var k := FirstOurs(listed, user, preBuy);
      (k < |listed| ==> listed[k].mint == mint) <==>
      forall i | 0 <= i < |listed| && Ours(listed[i], user, preBuy) && listed[i].mint != mint ::
        exists j :: 0 <= j < i && Ours(listed[j], user, preBuy) && listed[j].mint == mint
  {
  }

  /** So a balance of another token that is listed first is booked as the bought one. */
  lemma OtherTokenIsBooked(user: Pubkey, mint: Pubkey, other: Pubkey, amount: u64, received: u64, preBuy: u64)
    requires other != mint && amount > preBuy && received > preBuy
    ensures IsVerdict(Filled(amount), [Poll(None, Landed, None, None)],
      [ListedBalance(user, other, amount), ListedBalance(user, mint, received)], user, preBuy)
  {
    var polls := [Poll(None, Landed, None, None)];
    assert polls[0].status == Landed;
    assert Undecided(polls, 1, preBuy) && LandedBefore(polls, 1);
  }

  // ---- Settling the position ----

  /** SOL per token, at six decimals for the token and nine for SOL. */
  function CurvePrice(c: Wire.Curve): real
  {
    if c.virtualToken == 0 then 0.0 else c.virtualSol as real / c.virtualToken as real / 1000.0
  }

  /** The price at which all tokens of the curve are worth its lamports; no quote is better than it, in either direction. */
  lemma PriceBoundsQuotes(c: Wire.Curve, tokens: u64, lamports: u64)
    requires c.virtualToken > 0
    ensures CurvePrice(c) * (c.virtualToken as real / 1000000.0) == c.virtualSol as real / 1000000000.0
    ensures CurvePrice(c) * (tokens as real / 1000000.0) >= CurveQuote.TokenToSolQuote(c, tokens) as real / 1000000000.0
    ensures CurvePrice(c) * (CurveQuote.SolToTokenQuote(c, lamports) as real / 1000000.0) <= lamports as real / 1000000000.0
  {
    hide CurveQuote.TokenToSolQuote, CurveQuote.SolToTokenQuote, CurveQuote.Quote, CurvePrice;
    var x, y := c.virtualToken, c.virtualSol;
    var out, got := CurveQuote.TokenToSolQuote(c, tokens), CurveQuote.SolToTokenQuote(c, lamports);
    var raw := CurvePrice(c) * 1000.0;
    PricePerRawToken(c);
    CurveQuote.QuoteBounds(x, y, tokens);
    CurveQuote.QuoteBounds(y, x, lamports);
    QuoteAtMostPrice(x, y, tokens, out);
    QuoteAtMostPrice(y, x, lamports, got);
    WorthAtLeast(raw, x, y, tokens, out);
    WorthAtMost(raw, x, y, got, lamports);
    PerDisplayUnit(CurvePrice(c), x);
    PerDisplayUnit(CurvePrice(c), tokens);
    PerDisplayUnit(CurvePrice(c), got);
  }

  lemma PricePerRawToken(c: Wire.Curve)
    requires c.virtualToken > 0
    ensures CurvePrice(c) * 1000.0 * c.virtualToken as real == c.virtualSol as real
  {
  }

  lemma PerDisplayUnit(price: real, amount: nat)
    ensures price * (amount as real / 1000000.0) == price * 1000.0 * amount as real / 1000000000.0
  {
  }

  lemma QuoteAtMostPrice(x: nat, y: nat, d: nat, q: nat)
    requires x > 0 ==> q * (x + d) <= y * d
    requires x == 0 ==> q == 0
    ensures q * x <= y * d
  {
    assert q * (x + d) == q * x + q * d;
  }

  lemma WorthAtLeast(price: real, x: nat, y: nat, d: nat, q: nat)
    requires price * x as real == y as real && x > 0 && q * x <= y * d
    ensures price * d as real >= q as real
  {
    PriceHistory.ScaleIff(q as real, price * d as real, x as real);
    assert (price * d as real) * x as real == (price * x as real) * d as real;
    assert (q * x) as real == q as real * x as real && (y * d) as real == y as real * d as real;
  }

  lemma WorthAtMost(price: real, x: nat, y: nat, q: nat, d: nat)
    requires price * x as real == y as real && x > 0 && q * y <= x * d
    ensures price * q as real <= d as real
  {
    PriceHistory.ScaleIff(price * q as real, d as real, x as real);
    assert (price * q as real) * x as real == (price * x as real) * q as real;
    assert (q * y) as real == q as real * y as real && (x * d) as real == x as real * d as real;
  }

  /** The curve's price if it is known and positive, else what was paid per token received, else nothing. */
  function EntryPrice(curve: Option<Wire.Curve>, lamports: u64, delta: nat): (price: Option<real>)
    requires delta > 0
    ensures price.Some? ==> price.value > 0.0
    ensures price.None? <==> lamports == 0 && (curve.Some? ==> CurvePrice(curve.value) == 0.0)
    ensures curve.Some? && CurvePrice(curve.value) > 0.0 ==> price == Some(CurvePrice(curve.value))
    ensures price.Some? ==> (curve.Some? && price.value == CurvePrice(curve.value)) || price.value * delta as real == lamports as real / 1000.0
  {
    PaidPerToken(lamports, delta);
    if curve.Some? && CurvePrice(curve.value) > 0.0 then Some(CurvePrice(curve.value)) else
    var paid := (lamports as real / 1000000000.0) / (delta as real / 1000000.0);
    if lamports > 0 then Some(paid) else None
  }

  /** The one operation that the confirmer performs on the position. */
  function SettledBy(v: Verdict, preBuy: u64, estimate: u64, openCount: nat, curve: Option<Wire.Curve>, lamports: u64, now: nat): Operation
  {
    if v.Filled? && v.balance > preBuy then
      var delta := v.balance - preBuy;
      Activate(AssignedAmount(estimate, openCount, delta), EntryPrice(curve, lamports, delta), now)
    else Fail
  }

  /** Watches a buy and settles its position exactly once: activated if a balance was seen, failed otherwise. */
  method ConfirmBuy(manager: AutoSellManager, key: PositionKey, user: Pubkey, polls: seq<Poll>, listed: seq<ListedBalance>,
                    preBuy: u64, estimate: u64, lamports: u64, curve: Option<Wire.Curve>, now: nat) returns (v: Verdict)
    requires manager.Valid()
    modifies manager.positions.Values
    ensures manager.Valid() && IsVerdict(v, polls, listed, user, preBuy)
    ensures manager.Contents() == Update(old(manager.Contents()), key,
      SettledBy(v, preBuy, estimate, |OpenKeys(old(manager.Contents()), key.tokenMint)|, curve, lamports, now))
  {
    hide IsVerdict, EntryPrice, OpenKeys, Update, Apply;
    v := Judge(polls, listed, user, preBuy);
    if v.Filled? && v.balance > preBuy {
      var delta := v.balance - preBuy;
      var price := EntryPrice(curve, lamports, delta);
      var openPositions := manager.OpenPositionCountForMint(key.tokenMint);
      var share: nat;
      if openPositions <= 1 && delta > 0 {
        share := delta;
      } else if estimate > 0 {
        share := estimate;
      } else {
        share := delta;
      }
      manager.ConfirmSuccess(key, Max(share, 1), price, now);
    } else {
      manager.ConfirmFailed(key);
    }
  }

  /** The position is activated exactly when the verdict is a fill, and then with a positive amount and no price but a positive one. */
  lemma SettledByFillIff(v: Verdict, polls: seq<Poll>, listed: seq<ListedBalance>, user: Pubkey, preBuy: u64,
                         estimate: u64, openCount: nat, curve: Option<Wire.Curve>, lamports: u64, now: nat)
    requires IsVerdict(v, polls, listed, user, preBuy)
    ensures var op := SettledBy(v, preBuy, estimate, openCount, curve, lamports, now);
      && (op.Activate? <==> v.Filled?) && (op == Fail <==> !v.Filled?)
      && (op.Activate? ==> op.amount > 0 && (openCount <= 1 ==> op.amount == v.balance - preBuy)
                           && (openCount > 1 ==> op.amount == if estimate > 0 then estimate else v.balance - preBuy))
      && (op.Activate? && op.curvePrice.Some? ==> op.curvePrice.value > 0.0)
  {
    if v.Filled? {
      FillWasObserved(v.balance, polls, listed, user, preBuy);
    }
  }

  /**
   * Two groups that buy the same token at once are both booked with their estimates, so that the bookings add up to what
   * came in exactly if the estimates do; only a position that is alone is booked with what was received.
   */
  lemma SharedBookingsAddUpIff(balance: u64, preBuy: u64, first: u64, second: u64, openCount: nat,
                               curve: Option<Wire.Curve>, lamports: u64, now: nat)
    requires balance > preBuy && first > 0 && second > 0 && openCount >= 2
    ensures var a := SettledBy(Filled(balance), preBuy, first, openCount, curve, lamports, now);
      var b := SettledBy(Filled(balance), preBuy, second, openCount, curve, lamports, now);
      && a.Activate? && b.Activate?
      && (a.amount + b.amount == balance - preBuy <==> first + second == balance - preBuy)
  {
  }
}
