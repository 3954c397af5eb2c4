/** Byte layouts: little-endian amounts, the program's buy instructions and its bonding-curve account. */
module Wire {
  import opened Common

  // ---- Little-endian integers ----

  function Pow256(k: nat): (r: nat)
    ensures r > 0
  {
    if k == 0 then 1 else 256 * Pow256(k - 1)
  }

  function ToLe(n: nat, width: nat): (bytes: seq<byte>)
    ensures |bytes| == width
  {
    if width == 0 then [] else [n % 256] + ToLe(n / 256, width - 1)
  }

  function FromLe(bytes: seq<byte>): nat
  {
    if bytes == [] then 0 else bytes[0] + 256 * FromLe(bytes[1..])
  }

  /** Decoding undoes encoding of every number that fits. */
  lemma {:induction false} FromToLe(n: nat, width: nat)
    requires n < Pow256(width)
    ensures FromLe(ToLe(n, width)) == n
  {
    if width > 0 {
      FromToLe(n / 256, width - 1);
      assert ToLe(n, width)[1..] == ToLe(n / 256, width - 1);
    }
  }

  lemma DigitAndRest(digit: byte, rest: nat)
    ensures (digit + 256 * rest) % 256 == digit && (digit + 256 * rest) / 256 == rest
  {
  }

  /** Every byte string decodes to a number that fits, and encoding it gives the bytes back. */
  lemma {:induction false} ToFromLe(bytes: seq<byte>)
    ensures FromLe(bytes) < Pow256(|bytes|)
    ensures ToLe(FromLe(bytes), |bytes|) == bytes
  {
    if bytes != [] {
      ToFromLe(bytes[1..]);
      var rest := FromLe(bytes[1..]);
      DigitAndRest(bytes[0], rest);
      assert ToLe(FromLe(bytes), |bytes|) == [bytes[0]] + bytes[1..];
    }
  }

  lemma EightBytes()
    ensures Pow256(8) == TWO_64
  {
    assert Pow256(4) == 0x1_0000_0000;
  }

  function Le64(n: u64): (bytes: seq<byte>)
    ensures |bytes| == 8
  {
    ToLe(n, 8)
  }

  function U64At(data: seq<byte>, at: nat): (n: u64)
    requires at + 8 <= |data|
  {
    EightBytes();
    ToFromLe(data[at..at + 8]);
    FromLe(data[at..at + 8])
  }

  /** Reading a word and finding its encoding there are the same thing. */
  lemma U64AtIff(data: seq<byte>, at: nat, n: u64)
    requires at + 8 <= |data|
    ensures U64At(data, at) == n <==> data[at..at + 8] == Le64(n)
  {
    hide ToLe, FromLe, Pow256;
    EightBytes();
    FromToLe(n, 8);
    ToFromLe(data[at..at + 8]);
  }

  // ---- Buy instructions ----

  const BUY_DISCRIMINATOR: seq<byte> := [102, 6, 61, 18, 1, 218, 235, 234]
  const BUY_EXACT_SOL_IN_DISCRIMINATOR: seq<byte> := [56, 252, 116, 8, 158, 223, 205, 95]

  datatype TargetBuy = Buy(tokenAmount: u64, maxSolCost: u64) | BuyExactSolIn(solAmount: u64)

  datatype ParseError = TooShort(length: nat) | ZeroAmount | UnsupportedDiscriminator

  /** Reads the instruction that the followed wallet sent. */
  function ParseTargetBuy(data: seq<byte>): Result<TargetBuy, ParseError>
  {
    if |data| < 24 then Err(TooShort(|data|))
    else if data[..8] == BUY_DISCRIMINATOR then
      var tokenAmount, maxSolCost := U64At(data, 8), U64At(data, 16);
      if tokenAmount == 0 || maxSolCost == 0 then Err(ZeroAmount) else Ok(Buy(tokenAmount, maxSolCost))
    else if data[..8] == BUY_EXACT_SOL_IN_DISCRIMINATOR then
      var solAmount := U64At(data, 8);
      if solAmount == 0 then Err(ZeroAmount) else Ok(BuyExactSolIn(solAmount))
    else Err(UnsupportedDiscriminator)
  }

  predicate RequiresCurve(data: seq<byte>)
  {
    var parsed := ParseTargetBuy(data);
    parsed.Ok? && parsed.value.BuyExactSolIn?
  }

  /** The bytes of a buy as the bot sends it. */
  method BuildBuyData(tokenAmount: u64, maxSolCost: u64) returns (data: seq<byte>)
    ensures data == BUY_DISCRIMINATOR + Le64(tokenAmount) + Le64(maxSolCost)
    ensures data[..8] == [102, 6, 61, 18, 1, 218, 235, 234]
    ensures tokenAmount > 0 && maxSolCost > 0 ==> ParseTargetBuy(data) == Ok(Buy(tokenAmount, maxSolCost))
    ensures tokenAmount == 0 || maxSolCost == 0 ==> ParseTargetBuy(data) == Err(ZeroAmount)
  {
    data := [];
    data := data + BUY_DISCRIMINATOR;
    data := data + Le64(tokenAmount);
    data := data + Le64(maxSolCost);
    BuyDataReadsBack(tokenAmount, maxSolCost, data);
  }

  lemma BuyDataReadsBack(tokenAmount: u64, maxSolCost: u64, data: seq<byte>)
    requires data == BUY_DISCRIMINATOR + Le64(tokenAmount) + Le64(maxSolCost)
    ensures |data| == 24 && data[..8] == BUY_DISCRIMINATOR
    ensures U64At(data, 8) == tokenAmount && U64At(data, 16) == maxSolCost
  {
    hide Le64, U64At;
    U64AtIff(data, 8, tokenAmount);
    U64AtIff(data, 16, maxSolCost);
    assert data[..8] == BUY_DISCRIMINATOR;
  }

  /** The parser accepts exactly the encodings of non-zero amounts; what follows them is not looked at. */
  lemma ParsesAsBuyIff(data: seq<byte>, tokenAmount: u64, maxSolCost: u64)
    ensures ParseTargetBuy(data) == Ok(Buy(tokenAmount, maxSolCost)) <==>
      && tokenAmount > 0 && maxSolCost > 0
      && BUY_DISCRIMINATOR + Le64(tokenAmount) + Le64(maxSolCost) <= data
  {
    hide Le64, U64At;
    var wire := BUY_DISCRIMINATOR + Le64(tokenAmount) + Le64(maxSolCost);
    if |data| >= 24 {
      U64AtIff(data, 8, tokenAmount);
      U64AtIff(data, 16, maxSolCost);
      assert wire[..8] == BUY_DISCRIMINATOR && wire[8..16] == Le64(tokenAmount) && wire[16..24] == Le64(maxSolCost);
      assert wire == wire[..8] + wire[8..16] + wire[16..24];
      assert data[..24] == data[..8] + data[8..16] + data[16..24];
      assert wire <= data <==> data[..24] == wire;
    }
  }

  /** An instruction needs the curve exactly when it names a non-zero amount of SOL to spend in full. */
  lemma RequiresCurveIff(data: seq<byte>)
    ensures RequiresCurve(data) <==>
      |data| >= 24 && exists solAmount: u64 :: solAmount > 0 && [56, 252, 116, 8, 158, 223, 205, 95] + Le64(solAmount) <= data
  {
    hide Le64, U64At;
    if |data| >= 24 {
      var read := U64At(data, 8);
      U64AtIff(data, 8, read);
      assert data[..16] == data[..8] + data[8..16];
      if RequiresCurve(data) {
        assert BUY_EXACT_SOL_IN_DISCRIMINATOR + Le64(read) <= data;
      }
      forall solAmount: u64 | solAmount > 0 && BUY_EXACT_SOL_IN_DISCRIMINATOR + Le64(solAmount) <= data
        ensures RequiresCurve(data)
      {
        var wire := BUY_EXACT_SOL_IN_DISCRIMINATOR + Le64(solAmount);
        U64AtIff(data, 8, solAmount);
        assert data[..8] == wire[..8] == BUY_EXACT_SOL_IN_DISCRIMINATOR;
        assert data[8..16] == wire[8..16] == Le64(solAmount);
        assert BUY_EXACT_SOL_IN_DISCRIMINATOR[0] != BUY_DISCRIMINATOR[0];
      }
    }
  }

  // ---- The bonding-curve account ----

  datatype Curve = Curve(
    virtualToken: u64,
    virtualSol: u64,
    realToken: u64,
    realSol: u64,
    totalSupply: u64,
    complete: bool,
    creator: Option<seq<byte>>,
    mayhem: bool,
    cashback: bool)

  /** Reads a curve; the fields added later default when the account is too short to hold them. */
  function DecodeCurve(data: seq<byte>): Result<Curve, nat>
  {
    if |data| < 49 then Err(|data|) else
    Ok(Curve(
      U64At(data, 8),
      U64At(data, 16),
      U64At(data, 24),
      U64At(data, 32),
      U64At(data, 40),
      data[48] != 0,
      if |data| >= 81 then Some(data[49..81]) else None,
      |data| > 81 && data[81] != 0,
      |data| > 82 && data[82] != 0))
  }

  function Flag(b: bool): byte
  {
    if b then 1 else 0
  }

  /** A curve laid out by hand behind some discriminator, with the later fields only if there is a creator. */
  function EncodeCurve(discriminator: seq<byte>, c: Curve): seq<byte>
  {
    discriminator + Le64(c.virtualToken) + Le64(c.virtualSol) + Le64(c.realToken) + Le64(c.realSol)
    + Le64(c.totalSupply) + [Flag(c.complete)]
    + if c.creator.Some? then c.creator.value + [Flag(c.mayhem), Flag(c.cashback)] else []
  }

  /** Whatever the discriminator and whatever follows, the curve is read back. */
  lemma CurveRoundTrip(discriminator: seq<byte>, c: Curve, rest: seq<byte>)
    requires |discriminator| == 8
    requires match c.creator case Some(key) => |key| == 32 case None => !c.mayhem && !c.cashback && |rest| < 32
    ensures DecodeCurve(EncodeCurve(discriminator, c) + rest) == Ok(c)
  {
    hide Le64, U64At;
    var data := EncodeCurve(discriminator, c) + rest;
    assert data[8..16] == Le64(c.virtualToken) && data[16..24] == Le64(c.virtualSol);
    assert data[24..32] == Le64(c.realToken) && data[32..40] == Le64(c.realSol) && data[40..48] == Le64(c.totalSupply);
    assert data[48] == Flag(c.complete);
    if c.creator.Some? {
      assert data[49..81] == c.creator.value && data[81] == Flag(c.mayhem) && data[82] == Flag(c.cashback);
    }
    DecodesTo(data, c);
  }

  /** What the bytes must be for a curve to be read. */
  lemma DecodesTo(data: seq<byte>, c: Curve)
    requires |data| >= 49 && data[48] == Flag(c.complete)
    requires data[8..16] == Le64(c.virtualToken) && data[16..24] == Le64(c.virtualSol)
    requires data[24..32] == Le64(c.realToken) && data[32..40] == Le64(c.realSol) && data[40..48] == Le64(c.totalSupply)
    requires match c.creator
      case Some(key) => |data| >= 83 && data[49..81] == key && data[81] == Flag(c.mayhem) && data[82] == Flag(c.cashback)
      case None => |data| < 81 && !c.mayhem && !c.cashback
    ensures DecodeCurve(data) == Ok(c)
  {
    hide Le64, U64At;
    U64AtIff(data, 8, c.virtualToken);
    U64AtIff(data, 16, c.virtualSol);
    U64AtIff(data, 24, c.realToken);
    U64AtIff(data, 32, c.realSol);
    U64AtIff(data, 40, c.totalSupply);
  }

  lemma WordsAlikeIff(a: seq<byte>, b: seq<byte>, at: nat)
    requires at + 8 <= |a| && at + 8 <= |b|
    ensures U64At(a, at) == U64At(b, at) <==> a[at..at + 8] == b[at..at + 8]
  {
    hide Le64, U64At;
    U64AtIff(a, at, U64At(b, at));
    U64AtIff(b, at, U64At(b, at));
  }

  lemma FiveWords(a: seq<byte>, b: seq<byte>)
    requires |a| >= 48 && |b| >= 48
    ensures a[8..48] == b[8..48] <==>
      && a[8..16] == b[8..16] && a[16..24] == b[16..24] && a[24..32] == b[24..32]
      && a[32..40] == b[32..40] && a[40..48] == b[40..48]
  {
    SplitWords(a);
    SplitWords(b);
    if a[8..48] == b[8..48] {
      Inside(a, b, 0);
      Inside(a, b, 8);
      Inside(a, b, 16);
      Inside(a, b, 24);
      Inside(a, b, 32);
    }
  }

  lemma Inside(a: seq<byte>, b: seq<byte>, i: nat)
    requires |a| >= 48 && |b| >= 48 && i <= 32 && a[8..48] == b[8..48]
    ensures a[8 + i..16 + i] == b[8 + i..16 + i]
  {
    assert forall k | 8 + i <= k < 16 + i :: a[k] == a[8..48][k - 8] == b[8..48][k - 8] == b[k];
  }

  lemma SplitWords(s: seq<byte>)
    requires |s| >= 48
    ensures s[8..48] == s[8..16] + s[16..24] + s[24..32] + s[32..40] + s[40..48]
  {
  }

  /** Two accounts are read as the same curve exactly when they agree on the bytes that matter. */
  lemma DecodesAlikeIff(a: seq<byte>, b: seq<byte>)
    requires |a| >= 49 && |b| >= 49
    ensures DecodeCurve(a) == DecodeCurve(b) <==>
      && a[8..48] == b[8..48] && (a[48] == 0 <==> b[48] == 0)
      && (|a| < 81 <==> |b| < 81) && (|a| >= 81 ==> a[49..81] == b[49..81])
      && (|a| > 81 && a[81] != 0 <==> |b| > 81 && b[81] != 0)
      && (|a| > 82 && a[82] != 0 <==> |b| > 82 && b[82] != 0)
  {
    hide Le64, U64At;
    WordsAlikeIff(a, b, 8);
    WordsAlikeIff(a, b, 16);
    WordsAlikeIff(a, b, 24);
    WordsAlikeIff(a, b, 32);
    WordsAlikeIff(a, b, 40);
    FiveWords(a, b);
  }
}
