/** Constant-product quotes of a bonding curve, and what whole runs of quoted trades can and cannot do. */
module CurveQuote {
  import opened Common
  import Wire

  /** What `amount` of the one asset buys of the other, rounded down; nothing from an empty reserve. */
  function Quote(inReserve: nat, outReserve: nat, amount: nat): nat
  {
    if inReserve == 0 then 0 else outReserve * amount / (inReserve + amount)
  }

  lemma QuoteBounds(x: nat, y: nat, d: nat)
    ensures Quote(x, y, d) <= y
    ensures x > 0 && y > 0 ==> Quote(x, y, d) < y
    ensures x > 0 ==> Quote(x, y, d) * (x + d) <= y * d < (Quote(x, y, d) + 1) * (x + d)
  {
    if x > 0 {
      var q := Quote(x, y, d);
      assert y * d == q * (x + d) + (y * d) % (x + d);
      if y > 0 {
        LargeQuoteIsImpossible(x, y, d, q);
      }
    }
  }

  lemma LargeQuoteIsImpossible(x: nat, y: nat, d: nat, q: nat)
    requires x > 0 && y > 0 && q * (x + d) <= y * d
    ensures q < y
  {
    assert y * (x + d) == y * x + y * d;
    assert q >= y ==> q * (x + d) >= y * (x + d);
  }

  lemma MulMonotone(a: nat, b: nat, c: nat)
    requires a <= b
    ensures a * c <= b * c
  {
  }

  /**
   * Tokens for `sol` lamports, in the machine widths of the original: the `u128` casts never
   * overflow, the divisor is never zero and the result fits `u64`.  The answer is the largest
   * amount that keeps the reserve product from falling.
   */
  function SolToTokenQuote(curve: Wire.Curve, sol: u64): (tokens: u64)
    ensures tokens == Quote(curve.virtualSol, curve.virtualToken, sol) <= curve.virtualToken
    ensures curve.virtualSol == 0 ==> tokens == 0
    ensures curve.virtualSol > 0 ==>
      forall t: nat {:trigger KeepsProduct(curve.virtualSol, curve.virtualToken, sol, t)} | t <= curve.virtualToken ::
        KeepsProduct(curve.virtualSol, curve.virtualToken, sol, t) <==> t <= tokens
  {
    if curve.virtualSol == 0 then 0
    else
      ProductFits(curve.virtualToken, sol);
      QuoteBounds(curve.virtualSol, curve.virtualToken, sol);
      QuoteIsLargest(curve.virtualSol, curve.virtualToken, sol);
      var numerator: u128 := curve.virtualToken * sol;
      var denominator: u128 := curve.virtualSol + sol;
      numerator / denominator
  }

  /** Lamports for `tokens` raw tokens; the mirror image of the buy quote. */
  function TokenToSolQuote(curve: Wire.Curve, tokens: u64): (sol: u64)
    ensures sol == Quote(curve.virtualToken, curve.virtualSol, tokens) <= curve.virtualSol
    ensures curve.virtualToken == 0 ==> sol == 0
    ensures curve.virtualToken > 0 ==>
      forall s: nat {:trigger KeepsProduct(curve.virtualToken, curve.virtualSol, tokens, s)} | s <= curve.virtualSol ::
        KeepsProduct(curve.virtualToken, curve.virtualSol, tokens, s) <==> s <= sol
  {
    if curve.virtualToken == 0 then 0
    else
      ProductFits(curve.virtualSol, tokens);
      QuoteBounds(curve.virtualToken, curve.virtualSol, tokens);
      QuoteIsLargest(curve.virtualToken, curve.virtualSol, tokens);
      var numerator: u128 := curve.virtualSol * tokens;
      var denominator: u128 := curve.virtualToken + tokens;
      numerator / denominator
  }

  /** Taking `out` for `amount` leaves the product of the reserves at least as large. */
  ghost predicate KeepsProduct(inReserve: nat, outReserve: nat, amount: nat, out: nat)
    requires out <= outReserve
  {
    inReserve * outReserve <= (inReserve + amount) * (outReserve - out)
  }

  lemma ProductFits(a: u64, b: u64)
    ensures a * b < TWO_128
  {
    ProductBelow(a, b, TWO_64);
  }

  lemma ProductBelow(a: nat, b: nat, bound: nat)
    requires a < bound && b < bound
    ensures a * b < bound * bound
  {
    assert a * b <= a * bound;
    assert a * bound < bound * bound;
  }

  lemma ProductAfter(x: nat, y: nat, d: nat, t: nat)
    requires t <= y
    ensures (x + d) * (y - t) == x * y + y * d - t * (x + d)
  {
    assert (x + d) * (y - t) == (x + d) * y - (x + d) * t;
    assert (x + d) * y == x * y + d * y;
  }

  lemma QuoteIsLargest(x: nat, y: nat, d: nat)
    requires x > 0
    ensures forall t: nat {:trigger KeepsProduct(x, y, d, t)} | t <= y :: KeepsProduct(x, y, d, t) <==> t <= Quote(x, y, d)
  {
    var q := Quote(x, y, d);
    QuoteBounds(x, y, d);
    forall t: nat {:trigger KeepsProduct(x, y, d, t)} | t <= y
      ensures KeepsProduct(x, y, d, t) <==> t <= q
    {
      ProductAfter(x, y, d, t);
      if t <= q {
        MulMonotone(t, q, x + d);
      } else {
        MulMonotone(q + 1, t, x + d);
      }
    }
  }

  // ---- Runs of trades on updated reserves ----

  datatype Trade = Buy(sol: nat) | Sell(tokens: nat)

  /** The curve's reserves together with what the trader has gained (or, if negative, spent). */
  datatype Market = Market(sol: nat, token: nat, walletSol: int, walletToken: int)

  function Apply(m: Market, t: Trade): Market
  {
    match t
    case Buy(d) =>
      QuoteBounds(m.sol, m.token, d);
      var q := Quote(m.sol, m.token, d);
      Market(m.sol + d, m.token - q, m.walletSol - d, m.walletToken + q)
    case Sell(d) =>
      QuoteBounds(m.token, m.sol, d);
      var q := Quote(m.token, m.sol, d);
      Market(m.sol - q, m.token + d, m.walletSol + q, m.walletToken - d)
  }

  function Run(m: Market, trades: seq<Trade>): Market
    decreases |trades|
  {
    if trades == [] then m else Run(Apply(m, trades[0]), trades[1..])
  }

  lemma ApplyKeepsProduct(m: Market, t: Trade)
    ensures m.sol * m.token <= Apply(m, t).sol * Apply(m, t).token
    ensures m.sol > 0 ==> Apply(m, t).sol > 0
    ensures m.token > 0 ==> Apply(m, t).token > 0
    ensures m.sol == 0 ==> Apply(m, t).token >= m.token
    ensures m.token == 0 ==> Apply(m, t).sol >= m.sol
  {
    match t
    case Buy(d) =>
      QuoteBounds(m.sol, m.token, d);
      ProductAfter(m.sol, m.token, d, Quote(m.sol, m.token, d));
    case Sell(d) =>
      QuoteBounds(m.token, m.sol, d);
      ProductAfter(m.token, m.sol, d, Quote(m.token, m.sol, d));
  }

  /** No sequence of quoted buys and sells lowers the reserve product, and nothing is created: curve plus trader is constant. */
  lemma {:induction false} ProductNeverDecreases(m: Market, trades: seq<Trade>)
    ensures m.sol * m.token <= Run(m, trades).sol * Run(m, trades).token
    ensures Run(m, trades).sol + Run(m, trades).walletSol == m.sol + m.walletSol
    ensures Run(m, trades).token + Run(m, trades).walletToken == m.token + m.walletToken
    ensures m.sol > 0 ==> Run(m, trades).sol > 0
    ensures m.token > 0 ==> Run(m, trades).token > 0
    decreases |trades|
  {
    if trades != [] {
      ApplyKeepsProduct(m, trades[0]);
      ProductNeverDecreases(Apply(m, trades[0]), trades[1..]);
    }
  }

  /** While a reserve stays at zero the other one cannot shrink. */
  lemma {:induction false} EmptyReserve(m: Market, trades: seq<Trade>)
    ensures m.token == 0 && Run(m, trades).token == 0 ==> Run(m, trades).sol >= m.sol
    ensures m.sol == 0 && Run(m, trades).sol == 0 ==> Run(m, trades).token >= m.token
    decreases |trades|
  {
    if trades != [] {
      ApplyKeepsProduct(m, trades[0]);
      EmptyReserve(Apply(m, trades[0]), trades[1..]);
      ProductNeverDecreases(Apply(m, trades[0]), trades[1..]);
    }
  }

  lemma LargerFactor(a: nat, b: nat, c: nat, d: nat)
    requires a * b <= c * d && d <= b && d > 0
    ensures a <= c
  {
    assert c * d <= c * b;
    assert c < a ==> (c + 1) * b <= a * b;
  }

  /** A trader who ends with no fewer tokens than at the start has gained no lamports, and the other way round. */
  lemma NoFreeLunch(m: Market, trades: seq<Trade>)
    ensures Run(m, trades).walletToken >= m.walletToken ==> Run(m, trades).walletSol <= m.walletSol
    ensures Run(m, trades).walletSol >= m.walletSol ==> Run(m, trades).walletToken <= m.walletToken
  {
    hide Run;
    var n := Run(m, trades);
    ProductNeverDecreases(m, trades);
    EmptyReserve(m, trades);
    if n.token <= m.token && m.token > 0 {
      LargerFactor(m.sol, m.token, n.sol, n.token);
    }
    if n.sol <= m.sol && m.sol > 0 {
      LargerFactor(m.token, m.sol, n.token, n.sol);
    }
  }

  // ---- Splitting one buy into many ----

  function Sum(amounts: seq<nat>): nat
  {
    if amounts == [] then 0 else amounts[0] + Sum(amounts[1..])
  }

  function Buys(amounts: seq<nat>): (trades: seq<Trade>)
    ensures |trades| == |amounts|
  {
    if amounts == [] then [] else [Buy(amounts[0])] + Buys(amounts[1..])
  }

  /** Tokens obtained by buying the amounts one after another, each at the reserves the previous one left. */
  function BoughtInSteps(sol: nat, token: nat, amounts: seq<nat>): int
  {
    Run(Market(sol, token, 0, 0), Buys(amounts)).walletToken
  }

  lemma {:induction false} BuysSpendTheSum(m: Market, amounts: seq<nat>)
    ensures Run(m, Buys(amounts)).walletSol == m.walletSol - Sum(amounts)
    ensures Run(m, Buys(amounts)).walletToken >= m.walletToken
    decreases |amounts|
  {
    if amounts != [] {
      assert Buys(amounts)[1..] == Buys(amounts[1..]);
      BuysSpendTheSum(Apply(m, Buy(amounts[0])), amounts[1..]);
    }
  }

  lemma SplitNeverBeatsOneBuy(sol: nat, token: nat, amounts: seq<nat>)
    requires sol > 0
    ensures BoughtInSteps(sol, token, amounts) <= Quote(sol, token, Sum(amounts))
  {
    var m := Market(sol, token, 0, 0);
    var n := Run(m, Buys(amounts));
    ProductNeverDecreases(m, Buys(amounts));
    BuysSpendTheSum(m, amounts);
    QuoteIsLargest(sol, token, Sum(amounts));
    assert KeepsProduct(sol, token, Sum(amounts), n.walletToken);
  }

  /** A token reserve of at most one token never pays out from a non-empty curve. */
  lemma {:induction false} DustPaysNothing(m: Market, amounts: seq<nat>)
    requires m.token <= 1
    ensures Run(m, Buys(amounts)).walletToken == m.walletToken
    decreases |amounts|
  {
    if amounts != [] {
      assert Buys(amounts)[1..] == Buys(amounts[1..]);
      QuoteBounds(m.sol, m.token, amounts[0]);
      DustPaysNothing(Apply(m, Buy(amounts[0])), amounts[1..]);
    }
  }

  /** With no lamports in the curve the first buy prices itself at zero, and a second one then empties half of it. */
  lemma EmptyCurveRewardsSplitting(token: nat)
    requires token >= 2
    ensures Quote(0, token, Sum([1, 1])) == 0
    ensures BoughtInSteps(0, token, [1, 1]) == token / 2 > 0
  {
    var m := Market(0, token, 0, 0);
    var m1 := Apply(m, Buy(1));
    assert m1 == Market(1, token, -1, 0);
    assert Buys([1, 1]) == [Buy(1), Buy(1)];
    assert Run(m, [Buy(1), Buy(1)]) == Run(m1, [Buy(1)]);
    assert Run(m1, [Buy(1)]) == Run(Apply(m1, Buy(1)), []);
    assert token * 1 / (1 + 1) == token / 2;
  }

  /**
   * Splitting never pays, for every list of amounts, exactly when the curve holds lamports
   * (the guard of the quote's early return) or has no more than one raw token to give.
   */
  lemma SplittingIsHarmlessIff(sol: nat, token: nat)
    ensures (forall amounts: seq<nat> :: BoughtInSteps(sol, token, amounts) <= Quote(sol, token, Sum(amounts)))
       <==> sol > 0 || token <= 1
  {
    if sol > 0 {
      forall amounts: seq<nat>
        ensures BoughtInSteps(sol, token, amounts) <= Quote(sol, token, Sum(amounts))
      {
        SplitNeverBeatsOneBuy(sol, token, amounts);
      }
    } else if token <= 1 {
      forall amounts: seq<nat>
        ensures BoughtInSteps(sol, token, amounts) <= Quote(sol, token, Sum(amounts))
      {
        DustPaysNothing(Market(sol, token, 0, 0), amounts);
      }
    } else {
      EmptyCurveRewardsSplitting(token);
      var amounts: seq<nat> := [1, 1];
      assert !(BoughtInSteps(sol, token, amounts) <= Quote(sol, token, Sum(amounts)));
    }
  }
}
