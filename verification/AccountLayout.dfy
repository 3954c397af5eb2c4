/** Account lists of the pump.fun buy and sell instructions, and their translation from a mirrored trade. */
module AccountLayout {
  import opened Common
  import Wire

  /** The program's own addresses and those of the accounts that every instruction lists. */
  datatype Fixed = Fixed(
    program: Pubkey,
    global: Pubkey,
    feeRecipient: Pubkey,
    eventAuthority: Pubkey,
    feeProgram: Pubkey,
    feeConfig: Pubkey,
    buybackFeeRecipient: Pubkey,
    mayhemFeeRecipient: Pubkey,
    systemProgram: Pubkey)

  const FIXED: Fixed := Fixed(
    "6EF8rrecthR5Dkzon8Nwu78hRvfCKubJ14M5uBEwF6P",
    "4wTV1YmiEkRvAtNtsSGPtUrqRYQMe5SKy2uB4Jjaxnjf",
    "62qc2CNXwrYqQScmEdiZFFAnJR262PxWEuNQtxfafNgV",
    "Ce6TQqeHC9p8KetsN6JsjHK7UTZk7nasjjnr7XxXp9F1",
    "pfeeUxB6jkeY1Hxd7CsFCAjcbHA9rWtchMGdZ6VojVZ",
    "8Wf5TiAheLUqBrKXeYg2JtAFFMWtKdG2BSFgqUcPVwTt",
    "8RskugtjeMFSPoSQjQcBt3eafaJ1o29EP23E9vMx6et9",
    "GesfTA3X2arioaHp8bbKdjG9vJtskViWACZoYvxp4twS",
    "11111111111111111111111111111111")

  /** The default key is all zeros, which is also the system program's address. */
  const DEFAULT_KEY: Pubkey := FIXED.systemProgram

  /** The byte strings under which the program derives addresses. */
  datatype Seed =
    | BondingCurve            // "bonding-curve"
    | BondingCurveV2          // "bonding-curve-v2"
    | CreatorVault            // "creator-vault"
    | GlobalVolumeAccumulator // "global_volume_accumulator"
    | UserVolumeAccumulator   // "user_volume_accumulator"
    | UserStats               // "user-stats"
    | User                    // "user"
    | Fee                     // "fee"
    | Volume                  // "volume"
    | UserFee                 // "user_fee"
    | UserAccount             // "user_account"

  /** Seeds under which a program may keep an account per user. */
  const USER_SEEDS: seq<Seed> :=
    [UserVolumeAccumulator, UserStats, User, Fee, Volume, UserFee, UserAccount]

  /** Slots of a mirrored buy that are taken on trust. */
  const TRUSTED_SLOTS: set<nat> := {1, 9, 16, 17}

  /** Address derivation, about which nothing is assumed: program addresses by seed and key, token accounts, and base 58. */
  datatype Derivation = Derivation(
    pda: (Seed, Option<Pubkey>) -> Pubkey,
    ata: (Pubkey, Pubkey, Pubkey) -> Pubkey,
    text: seq<byte> -> Pubkey)

  datatype AccountMeta = AccountMeta(key: Pubkey, writable: bool, signer: bool)

  /** The account list in which the keys at `writable` are writable and the user's alone signs. */
  function Metas(keys: seq<Pubkey>, writable: set<nat>): seq<AccountMeta>
  {
    seq(|keys|, i requires 0 <= i < |keys| => AccountMeta(keys[i], i in writable, i == 6))
  }

  function At(keys: seq<Pubkey>, i: nat): Pubkey
  {
    if i < |keys| then keys[i] else DEFAULT_KEY
  }

  // ---- Replacing the source user's accounts ----

  /** The account under the first matching seed is re-derived for our wallet; any other account is kept. */
  function ReplaceKey(d: Derivation, seeds: seq<Seed>, source: Pubkey, ours: Pubkey, account: Pubkey): Pubkey
  {
    if seeds == [] then account
    else if account == d.pda(seeds[0], Some(source)) then d.pda(seeds[0], Some(ours))
    else ReplaceKey(d, seeds[1..], source, ours, account)
  }

  predicate IsUserPda(d: Derivation, seeds: seq<Seed>, wallet: Pubkey, account: Pubkey)
  {
    exists i | 0 <= i < |seeds| :: account == d.pda(seeds[i], Some(wallet))
  }

  lemma {:induction false} ReplaceKeyFacts(d: Derivation, seeds: seq<Seed>, source: Pubkey, ours: Pubkey, account: Pubkey)
    ensures !IsUserPda(d, seeds, source, account) ==> ReplaceKey(d, seeds, source, ours, account) == account
    ensures IsUserPda(d, seeds, source, account) ==> IsUserPda(d, seeds, ours, ReplaceKey(d, seeds, source, ours, account))
    ensures source == ours ==> ReplaceKey(d, seeds, source, ours, account) == account
    decreases |seeds|
  {
    if seeds != [] {
      ReplaceKeyFacts(d, seeds[1..], source, ours, account);
      if account == d.pda(seeds[0], Some(source)) {
        assert ReplaceKey(d, seeds, source, ours, account) == d.pda(seeds[0], Some(ours));
      } else if IsUserPda(d, seeds, source, account) {
        var i :| 0 <= i < |seeds| && account == d.pda(seeds[i], Some(source));
        assert seeds[1..][i - 1] == seeds[i];
        var j :| 0 <= j < |seeds[1..]| && ReplaceKey(d, seeds[1..], source, ours, account) == d.pda(seeds[1..][j], Some(ours));
        assert seeds[j + 1] == seeds[1..][j];
      } else {
        assert forall i | 0 <= i < |seeds[1..]| :: seeds[1..][i] == seeds[i + 1];
      }
    }
  }

  function ReplaceUserPdas(d: Derivation, mirror: seq<Pubkey>, source: Pubkey, ours: Pubkey, ourAta: Pubkey): (keys: seq<Pubkey>)
    ensures |keys| == |mirror|
  {
    seq(|mirror|, i requires 0 <= i < |mirror| =>
      if i == 5 then ourAta else if i == 6 then ours else ReplaceKey(d, USER_SEEDS, source, ours, mirror[i]))
  }

  /** The mirror's own signer, when it has one, is the user whose accounts it lists. */
  function EffectiveSource(mirror: seq<Pubkey>, source: Pubkey): Pubkey
  {
    if |mirror| > 6 then mirror[6] else source
  }

  // ---- The three account lists ----

  /** The keys of the buy derived from the mint and curve alone. */
  function NativeBuyKeys(d: Derivation, user: Pubkey, mint: Pubkey, userAta: Pubkey, tokenProgram: Pubkey, curve: Wire.Curve): Option<seq<Pubkey>>
  {
    if curve.creator.None? then None else
    var bondingCurve := d.pda(BondingCurve, Some(mint));
    Some([
      FIXED.global,
      if curve.mayhem then FIXED.mayhemFeeRecipient else FIXED.feeRecipient,
      mint,
      bondingCurve,
      d.ata(bondingCurve, mint, tokenProgram),
      userAta,
      user,
      FIXED.systemProgram,
      tokenProgram,
      d.pda(CreatorVault, Some(d.text(curve.creator.value))),
      FIXED.eventAuthority,
      FIXED.program,
      d.pda(GlobalVolumeAccumulator, None),
      d.pda(UserVolumeAccumulator, Some(user)),
      FIXED.feeConfig,
      FIXED.feeProgram,
      FIXED.buybackFeeRecipient,
      DEFAULT_KEY])
  }

  /** Slots of a buy list, from the shared slots 0..4 and the four that move between layouts. */
  function BuyLayout(d: Derivation, shared: seq<Pubkey>, userAta: Pubkey, user: Pubkey, tokenProgram: Pubkey,
                     creatorVault: Pubkey, buyback: Pubkey, creatorAuthority: Pubkey): (keys: seq<Pubkey>)
    requires |shared| == 5
    ensures |keys| == 18
  {
    shared + [
      userAta, user, FIXED.systemProgram, tokenProgram, creatorVault, FIXED.eventAuthority, FIXED.program,
      d.pda(GlobalVolumeAccumulator, None), d.pda(UserVolumeAccumulator, Some(user)),
      FIXED.feeConfig, FIXED.feeProgram, buyback, creatorAuthority]
  }

  /** Creator vault, token program, buyback account and creator authority, where a list of that length keeps them. */
  function MovedBuySlots(r: seq<Pubkey>): (Pubkey, Pubkey, Pubkey, Pubkey)
  {
    if |r| >= 18 then (r[9], r[8], r[16], r[17])
    else if |r| == 17 then (r[9], r[8], FIXED.buybackFeeRecipient, DEFAULT_KEY)
    else if |r| == 16 then (r[8], r[9], r[14], r[15])
    else (DEFAULT_KEY, DEFAULT_KEY, FIXED.buybackFeeRecipient, DEFAULT_KEY)
  }

  /** Creator vault and the two trailing accounts, where a mirror of that length keeps them. */
  function MovedSellSlots(d: Derivation, mirror: seq<Pubkey>): (Pubkey, Pubkey, Pubkey)
  {
    if |mirror| >= 18 then (mirror[9], mirror[16], mirror[17])
    else if |mirror| >= 16 then (mirror[8], mirror[14], mirror[15])
    else (DEFAULT_KEY, d.pda(BondingCurveV2, Some(At(mirror, 2))), FIXED.buybackFeeRecipient)
  }

  /** The buy that a mirror is translated to: 18 slots, whether the mirror is a new buy, an old buy or a sell. */
  function BuyKeys(d: Derivation, user: Pubkey, userAta: Pubkey, source: Pubkey, mirror: seq<Pubkey>): (keys: seq<Pubkey>)
    ensures |keys| == 18
  {
    var r := ReplaceUserPdas(d, mirror, EffectiveSource(mirror, source), user, userAta);
    var shared := [At(r, 0), At(r, 1), At(r, 2), At(r, 3), At(r, 4)];
    var (creatorVault, tokenProgram, buyback, creatorAuthority) := MovedBuySlots(r);
    BuyLayout(d, shared, userAta, user, tokenProgram, creatorVault, buyback, creatorAuthority)
  }

  /** The sell that a mirror is translated to: 16 slots, or 17 with the user's volume account for a cashback token. */
  function SellKeys(d: Derivation, user: Pubkey, userAta: Pubkey, mirror: seq<Pubkey>, tokenProgram: Pubkey, cashback: bool): (keys: seq<Pubkey>)
    ensures |keys| == if cashback then 17 else 16
  {
    var n := |mirror|;
    var (creatorVault, curveV2, breakingFee) := MovedSellSlots(d, mirror);
    [if n > 0 then mirror[0] else FIXED.global,
     if n > 1 then mirror[1] else FIXED.feeRecipient,
     At(mirror, 2), At(mirror, 3), At(mirror, 4), userAta, user, FIXED.systemProgram, creatorVault, tokenProgram,
     FIXED.eventAuthority, FIXED.program, FIXED.feeConfig, FIXED.feeProgram]
    + (if cashback then [d.pda(UserVolumeAccumulator, Some(user))] else [])
    + [curveV2, breakingFee]
  }

  /** A sell list made up for a mint whose authority is known, with the user slots left blank. */
  function SynthSellMirror(d: Derivation, mint: Pubkey, authority: Pubkey, tokenProgram: Pubkey): (keys: seq<Pubkey>)
    ensures |keys| == 16
  {
    var bondingCurve := d.pda(BondingCurve, Some(mint));
    [FIXED.global, FIXED.feeRecipient, mint, bondingCurve, d.ata(bondingCurve, mint, tokenProgram),
     DEFAULT_KEY, DEFAULT_KEY, FIXED.systemProgram, d.pda(CreatorVault, Some(authority)), tokenProgram,
     FIXED.eventAuthority, FIXED.program, FIXED.feeConfig, FIXED.feeProgram,
     FIXED.buybackFeeRecipient, authority]
  }

  // ---- The instruction builders ----

  method BuildBuyFromMirror(d: Derivation, user: Pubkey, userAta: Pubkey, source: Pubkey, mirror: seq<Pubkey>)
    returns (accounts: seq<AccountMeta>)
    ensures accounts == Metas(BuyKeys(d, user, userAta, source, mirror), {1, 3, 4, 5, 6, 9, 12, 13, 16, 17})
    ensures |accounts| == 18 && forall i | 0 <= i < |accounts| :: accounts[i].signer ==> accounts[i] == AccountMeta(user, true, true)
    ensures accounts[5].key == userAta && accounts[6].key == user && accounts[6].signer
  {
    hide FIXED, ReplaceUserPdas, ReplaceKey, MovedBuySlots;
    var replaced := ReplaceUserPdas(d, mirror, EffectiveSource(mirror, source), user, userAta);
    var (creatorVault, tokenProgram, buyback, creatorAuthority) := MovedBuySlots(replaced);
    accounts := [
      AccountMeta(At(replaced, 0), false, false),
      AccountMeta(At(replaced, 1), true, false),
      AccountMeta(At(replaced, 2), false, false),
      AccountMeta(At(replaced, 3), true, false),
      AccountMeta(At(replaced, 4), true, false),
      AccountMeta(userAta, true, false),
      AccountMeta(user, true, true),
      AccountMeta(FIXED.systemProgram, false, false),
      AccountMeta(tokenProgram, false, false),
      AccountMeta(creatorVault, true, false),
      AccountMeta(FIXED.eventAuthority, false, false),
      AccountMeta(FIXED.program, false, false),
      AccountMeta(d.pda(GlobalVolumeAccumulator, None), true, false),
      AccountMeta(d.pda(UserVolumeAccumulator, Some(user)), true, false),
      AccountMeta(FIXED.feeConfig, false, false),
      AccountMeta(FIXED.feeProgram, false, false),
      AccountMeta(buyback, true, false),
      AccountMeta(creatorAuthority, true, false)];
  }

  method BuildSellFromMirror(d: Derivation, user: Pubkey, userAta: Pubkey, mirror: seq<Pubkey>, tokenProgram: Pubkey, cashback: bool)
    returns (accounts: seq<AccountMeta>)
    ensures accounts == Metas(SellKeys(d, user, userAta, mirror, tokenProgram, cashback),
                              {1, 3, 4, 5, 6, 8} + if cashback then {14, 16} else {15})
    ensures |accounts| >= 16 && forall i | 0 <= i < |accounts| :: accounts[i].signer ==> accounts[i] == AccountMeta(user, true, true)
    ensures accounts[5].key == userAta && accounts[6].key == user && accounts[6].signer
  {
    hide FIXED, MovedSellSlots;
    var (creatorVault, curveV2, breakingFee) := MovedSellSlots(d, mirror);
    accounts := [
      AccountMeta(if |mirror| > 0 then mirror[0] else FIXED.global, false, false),
      AccountMeta(if |mirror| > 1 then mirror[1] else FIXED.feeRecipient, true, false),
      AccountMeta(At(mirror, 2), false, false),
      AccountMeta(At(mirror, 3), true, false),
      AccountMeta(At(mirror, 4), true, false),
      AccountMeta(userAta, true, false),
      AccountMeta(user, true, true),
      AccountMeta(FIXED.systemProgram, false, false),
      AccountMeta(creatorVault, true, false),
      AccountMeta(tokenProgram, false, false),
      AccountMeta(FIXED.eventAuthority, false, false),
      AccountMeta(FIXED.program, false, false),
      AccountMeta(FIXED.feeConfig, false, false),
      AccountMeta(FIXED.feeProgram, false, false)];
    if cashback {
      accounts := accounts + [AccountMeta(d.pda(UserVolumeAccumulator, Some(user)), true, false)];
    }
    accounts := accounts + [AccountMeta(curveV2, false, false)];
    accounts := accounts + [AccountMeta(breakingFee, true, false)];
  }

  // ---- Validation ----

  datatype ValidationError = TooFewAccounts(count: nat) | MissingCreator | Mismatch(slot: nat)

  /** The first slot from `from` on, outside `skip`, in which two lists differ. */
  function FirstMismatch(actual: seq<Pubkey>, expected: seq<Pubkey>, skip: set<nat>, from: nat): (slot: Option<nat>)
    ensures slot.None? ==> forall i | from <= i < |actual| && i < |expected| && i !in skip :: actual[i] == expected[i]
    ensures slot.Some? ==>
      && from <= slot.value < |actual| && slot.value < |expected| && slot.value !in skip
      && actual[slot.value] != expected[slot.value]
      && forall i | from <= i < slot.value && i !in skip :: actual[i] == expected[i]
    decreases |actual| - from
  {
    if from >= |actual| || from >= |expected| then None
    else if from !in skip && actual[from] != expected[from] then Some(from)
    else FirstMismatch(actual, expected, skip, from + 1)
  }

  /** Whether a mirrored list may be used for a buy; only the 18-slot layout is compared slot by slot. */
  function ValidateMirror(d: Derivation, user: Pubkey, mint: Pubkey, userAta: Pubkey, tokenProgram: Pubkey, source: Pubkey,
                          mirror: seq<Pubkey>, curve: Option<Wire.Curve>): Result<(), ValidationError>
  {
    if |mirror| < 16 then Err(TooFewAccounts(|mirror|)) else
    var replaced := ReplaceUserPdas(d, mirror, EffectiveSource(mirror, source), user, userAta);
    if |mirror| != 18 then Ok(())
    else if curve.Some? then
      var expected := NativeBuyKeys(d, user, mint, userAta, tokenProgram, curve.value);
      if expected.None? then Err(MissingCreator)
      else
        var slot := FirstMismatch(replaced, expected.value, TRUSTED_SLOTS, 0);
        if slot.Some? then Err(Mismatch(slot.value)) else Ok(())
    else
      var slot := FirstMismatch(replaced, CurvelessKeys(d, user, mint, userAta, tokenProgram), {1, 9, 17}, 0);
      if slot.Some? then Err(Mismatch(slot.value)) else Ok(())
  }

  /** What can be expected of a buy list without knowing the curve; slots 1, 9 and 17 are not looked at. */
  function CurvelessKeys(d: Derivation, user: Pubkey, mint: Pubkey, userAta: Pubkey, tokenProgram: Pubkey): seq<Pubkey>
  {
    var bondingCurve := d.pda(BondingCurve, Some(mint));
    [FIXED.global, DEFAULT_KEY, mint, bondingCurve, d.ata(bondingCurve, mint, tokenProgram), userAta, user,
     FIXED.systemProgram, tokenProgram, DEFAULT_KEY, FIXED.eventAuthority, FIXED.program,
     d.pda(GlobalVolumeAccumulator, None), d.pda(UserVolumeAccumulator, Some(user)),
     FIXED.feeConfig, FIXED.feeProgram, FIXED.buybackFeeRecipient, DEFAULT_KEY]
  }

  /** With the curve known, exactly the 18-slot mirrors that agree with the native buy outside the trusted slots pass. */
  lemma AcceptedIff(d: Derivation, user: Pubkey, mint: Pubkey, userAta: Pubkey, tokenProgram: Pubkey, source: Pubkey,
                    mirror: seq<Pubkey>, curve: Wire.Curve)
    requires |mirror| == 18
    ensures var native := NativeBuyKeys(d, user, mint, userAta, tokenProgram, curve);
      ValidateMirror(d, user, mint, userAta, tokenProgram, source, mirror, Some(curve)).Ok? <==>
        native.Some? && forall i | 0 <= i < 18 && i !in {1, 9, 16, 17} ::
          ReplaceUserPdas(d, mirror, mirror[6], user, userAta)[i] == native.value[i]
  {
    hide FIXED, ReplaceKey, ReplaceUserPdas, IsUserPda;
    var native := NativeBuyKeys(d, user, mint, userAta, tokenProgram, curve);
    if native.Some? {
      assert |native.value| == 18;
    }
  }

  /** Only lists of eighteen are compared at all: shorter ones pass from sixteen accounts on, and so do longer ones. */
  lemma OtherLengthsPassIff(d: Derivation, user: Pubkey, mint: Pubkey, userAta: Pubkey, tokenProgram: Pubkey, source: Pubkey,
                            mirror: seq<Pubkey>, curve: Option<Wire.Curve>)
    requires |mirror| != 18
    ensures var answer := ValidateMirror(d, user, mint, userAta, tokenProgram, source, mirror, curve);
      (answer.Ok? <==> |mirror| >= 16) && (answer.Err? ==> answer.error == TooFewAccounts(|mirror|))
  {
    hide FIXED, ReplaceUserPdas, NativeBuyKeys, CurvelessKeys, FirstMismatch;
  }

  /** Why a list of eighteen is turned away: no creator is known, or this is the first slot that differs where it counts. */
  lemma RejectionMeans(d: Derivation, user: Pubkey, mint: Pubkey, userAta: Pubkey, tokenProgram: Pubkey, source: Pubkey,
                       mirror: seq<Pubkey>, curve: Wire.Curve)
    requires |mirror| == 18 && ValidateMirror(d, user, mint, userAta, tokenProgram, source, mirror, Some(curve)).Err?
    ensures var native := NativeBuyKeys(d, user, mint, userAta, tokenProgram, curve);
      var replaced := ReplaceUserPdas(d, mirror, mirror[6], user, userAta);
      match ValidateMirror(d, user, mint, userAta, tokenProgram, source, mirror, Some(curve)).error
      case MissingCreator => curve.creator.None?
      case Mismatch(slot) =>
        && native.Some? && slot < 18 && slot !in {1, 9, 16, 17} && replaced[slot] != native.value[slot]
        && forall i | 0 <= i < slot && i !in {1, 9, 16, 17} :: replaced[i] == native.value[i]
      case TooFewAccounts(_) => false
  {
    hide FIXED, ReplaceKey, ReplaceUserPdas, IsUserPda;
    var native := NativeBuyKeys(d, user, mint, userAta, tokenProgram, curve);
    if native.Some? {
      assert |native.value| == 18;
    }
  }

  /** Each of the seven accounts derived for the source user is replaced by one of ours. */
  lemma SevenAreReplaced(d: Derivation, source: Pubkey, ours: Pubkey, seed: Seed)
    requires seed in {UserVolumeAccumulator, UserStats, User, Fee, Volume, UserFee, UserAccount}
    ensures IsUserPda(d, USER_SEEDS, ours, ReplaceKey(d, USER_SEEDS, source, ours, d.pda(seed, Some(source))))
  {
    assert USER_SEEDS[0] == UserVolumeAccumulator && USER_SEEDS[1] == UserStats && USER_SEEDS[2] == User && USER_SEEDS[3] == Fee;
    assert USER_SEEDS[4] == Volume && USER_SEEDS[5] == UserFee && USER_SEEDS[6] == UserAccount;
    ReplaceKeyFacts(d, USER_SEEDS, source, ours, d.pda(seed, Some(source)));
  }

  /** Somebody else's native buy passes, unless a slot shared by all users happens to be one of that user's accounts. */
  lemma NativeMirrorIsAccepted(d: Derivation, user: Pubkey, userAta: Pubkey, other: Pubkey, otherAta: Pubkey, mint: Pubkey,
                               tokenProgram: Pubkey, source: Pubkey, curve: Wire.Curve)
    requires curve.creator.Some?
    requires forall i: nat | SharedSlot(i) ::
      !IsUserPda(d, USER_SEEDS, other, NativeBuyKeys(d, other, mint, otherAta, tokenProgram, curve).value[i])
    ensures var mirror := NativeBuyKeys(d, other, mint, otherAta, tokenProgram, curve).value;
      ValidateMirror(d, user, mint, userAta, tokenProgram, source, mirror, Some(curve)).Ok?
  {
    hide FIXED, ReplaceKey, IsUserPda, ValidateMirror, USER_SEEDS, SharedSlot;
    var mirror := NativeBuyKeys(d, other, mint, otherAta, tokenProgram, curve).value;
    assert mirror[16 := mirror[16]] == mirror;
    RotatedBuybackIff(d, user, userAta, other, otherAta, mint, tokenProgram, source, curve, mirror[16]);
  }

  lemma VolumeAccountIsReplaced(d: Derivation, source: Pubkey, ours: Pubkey)
    ensures ReplaceKey(d, USER_SEEDS, source, ours, d.pda(UserVolumeAccumulator, Some(source)))
      == d.pda(UserVolumeAccumulator, Some(ours))
  {
  }

  /** An accepted 18-slot mirror leads to the native buy in every slot that is not taken on trust. */
  lemma AcceptedMirrorBuysNatively(d: Derivation, user: Pubkey, mint: Pubkey, userAta: Pubkey, tokenProgram: Pubkey, source: Pubkey,
                                   mirror: seq<Pubkey>, curve: Wire.Curve)
    requires |mirror| == 18 && ValidateMirror(d, user, mint, userAta, tokenProgram, source, mirror, Some(curve)).Ok?
    ensures var native := NativeBuyKeys(d, user, mint, userAta, tokenProgram, curve);
      native.Some? && forall i | 0 <= i < 18 && i !in {1, 9, 16, 17} ::
        BuyKeys(d, user, userAta, source, mirror)[i] == native.value[i]
  {
    hide FIXED, USER_SEEDS, ReplaceKey;
  }

  /** Without the curve, exactly the 18-slot mirrors pass that agree with what can be expected outside slots 1, 9 and 17. */
  lemma CurvelessAcceptedIff(d: Derivation, user: Pubkey, mint: Pubkey, userAta: Pubkey, tokenProgram: Pubkey, source: Pubkey,
                             mirror: seq<Pubkey>)
    requires |mirror| == 18
    ensures ValidateMirror(d, user, mint, userAta, tokenProgram, source, mirror, None).Ok? <==>
      forall i | 0 <= i < 18 && i !in {1, 9, 17} ::
        ReplaceUserPdas(d, mirror, mirror[6], user, userAta)[i] == CurvelessKeys(d, user, mint, userAta, tokenProgram)[i]
  {
    hide FIXED, ReplaceKey, ReplaceUserPdas, IsUserPda;
    assert |CurvelessKeys(d, user, mint, userAta, tokenProgram)| == 18;
  }

  /** The slots of a native buy that are the same for every user and are checked. */
  predicate SharedSlot(i: nat)
  {
    i in {0, 2, 3, 4, 7, 8, 10, 11, 12, 14, 15}
  }

  lemma NativeReplaced(d: Derivation, user: Pubkey, userAta: Pubkey, other: Pubkey, otherAta: Pubkey, mint: Pubkey,
                       tokenProgram: Pubkey, curve: Wire.Curve, rotated: Pubkey)
    requires curve.creator.Some?
    requires forall i: nat | SharedSlot(i) ::
      !IsUserPda(d, USER_SEEDS, other, NativeBuyKeys(d, other, mint, otherAta, tokenProgram, curve).value[i])
    ensures var mirror := NativeBuyKeys(d, other, mint, otherAta, tokenProgram, curve).value[16 := rotated];
      var ours := NativeBuyKeys(d, user, mint, userAta, tokenProgram, curve).value;
      var replaced := ReplaceUserPdas(d, mirror, mirror[6], user, userAta);
      && (forall i: nat | SharedSlot(i) || i in {5, 6, 13} :: replaced[i] == ours[i])
      && replaced[16] == ReplaceKey(d, USER_SEEDS, other, user, rotated)
  {
    hide FIXED, ReplaceKey, IsUserPda, USER_SEEDS;
    var mirror := NativeBuyKeys(d, other, mint, otherAta, tokenProgram, curve).value;
    forall i: nat | SharedSlot(i)
      ensures ReplaceKey(d, USER_SEEDS, other, user, mirror[i]) == mirror[i]
    {
      ReplaceKeyFacts(d, USER_SEEDS, other, user, mirror[i]);
    }
    VolumeAccountIsReplaced(d, other, user);
  }

  /**
   * The native buy of another user with any buyback account passes if the curve is known, and without the curve
   * exactly if that account is, or is replaced by, the constant one.
   */
  lemma RotatedBuybackIff(d: Derivation, user: Pubkey, userAta: Pubkey, other: Pubkey, otherAta: Pubkey, mint: Pubkey,
                          tokenProgram: Pubkey, source: Pubkey, curve: Wire.Curve, rotated: Pubkey)
    requires curve.creator.Some?
    requires forall i: nat | SharedSlot(i) ::
      !IsUserPda(d, USER_SEEDS, other, NativeBuyKeys(d, other, mint, otherAta, tokenProgram, curve).value[i])
    ensures var mirror := NativeBuyKeys(d, other, mint, otherAta, tokenProgram, curve).value[16 := rotated];
      && ValidateMirror(d, user, mint, userAta, tokenProgram, source, mirror, Some(curve)).Ok?
      && (ValidateMirror(d, user, mint, userAta, tokenProgram, source, mirror, None).Ok? <==>
            ReplaceKey(d, USER_SEEDS, other, user, rotated) == FIXED.buybackFeeRecipient)
  {
    hide FIXED, ReplaceKey, IsUserPda, ValidateMirror, USER_SEEDS, ReplaceUserPdas;
    var mirror := NativeBuyKeys(d, other, mint, otherAta, tokenProgram, curve).value[16 := rotated];
    NativeReplaced(d, user, userAta, other, otherAta, mint, tokenProgram, curve, rotated);
    AcceptedIff(d, user, mint, userAta, tokenProgram, source, mirror, curve);
    CurvelessAcceptedIff(d, user, mint, userAta, tokenProgram, source, mirror);
  }

  /** So the buy of another user whose buyback account has rotated is turned away until the curve is known. */
  lemma RotatedMirrorIsRejected(d: Derivation, user: Pubkey, userAta: Pubkey, other: Pubkey, otherAta: Pubkey, mint: Pubkey,
                                tokenProgram: Pubkey, source: Pubkey, curve: Wire.Curve, rotated: Pubkey)
    requires curve.creator.Some? && rotated != FIXED.buybackFeeRecipient && !IsUserPda(d, USER_SEEDS, other, rotated)
    requires forall i: nat | SharedSlot(i) ::
      !IsUserPda(d, USER_SEEDS, other, NativeBuyKeys(d, other, mint, otherAta, tokenProgram, curve).value[i])
    ensures var mirror := NativeBuyKeys(d, other, mint, otherAta, tokenProgram, curve).value[16 := rotated];
      ValidateMirror(d, user, mint, userAta, tokenProgram, source, mirror, None).Err?
  {
    hide FIXED, ReplaceKey, IsUserPda, ValidateMirror, USER_SEEDS, ReplaceUserPdas, SharedSlot;
    ReplaceKeyFacts(d, USER_SEEDS, other, user, rotated);
    RotatedBuybackIff(d, user, userAta, other, otherAta, mint, tokenProgram, source, curve, rotated);
  }

  /** Validated without a curve, the buy even has the native buyback slot, whatever the curve turns out to be. */
  lemma AcceptedWithoutCurveBuysNatively(d: Derivation, user: Pubkey, mint: Pubkey, userAta: Pubkey, tokenProgram: Pubkey, source: Pubkey,
                                         mirror: seq<Pubkey>, curve: Wire.Curve)
    requires |mirror| == 18 && ValidateMirror(d, user, mint, userAta, tokenProgram, source, mirror, None).Ok?
    requires curve.creator.Some?
    ensures var native := NativeBuyKeys(d, user, mint, userAta, tokenProgram, curve);
      native.Some? && forall i | 0 <= i < 18 && i !in {1, 9, 17} ::
        BuyKeys(d, user, userAta, source, mirror)[i] == native.value[i]
  {
    hide FIXED, USER_SEEDS, ReplaceKey;
  }

  // ---- Translations ----

  /** The slots of a sell list that survive into a buy and back: the shared ones, the creator vault and the last two. */
  predicate Carried(slot: nat)
  {
    slot < 5 || slot == 8 || slot == 14 || slot == 15
  }

  /** A non-cashback sell list as the program expects it: the fixed accounts in their slots. */
  predicate IsSellList(keys: seq<Pubkey>)
  {
    && |keys| == 16
    && keys[7] == FIXED.systemProgram && keys[10] == FIXED.eventAuthority && keys[11] == FIXED.program
    && keys[12] == FIXED.feeConfig && keys[13] == FIXED.feeProgram
  }

  /** A sell list translated to a buy for `user` and back to a sell for its original user. */
  function ThereAndBack(d: Derivation, keys: seq<Pubkey>, user: Pubkey, userAta: Pubkey): seq<Pubkey>
    requires |keys| == 16
  {
    SellKeys(d, keys[6], keys[5], BuyKeys(d, user, userAta, keys[6], keys), keys[9], false)
  }

  /** The round trip changes nothing exactly when the list is a proper sell list whose carried slots survive replacement. */
  lemma RoundTripIff(d: Derivation, keys: seq<Pubkey>, user: Pubkey, userAta: Pubkey)
    requires |keys| == 16
    ensures ThereAndBack(d, keys, user, userAta) == keys <==>
      IsSellList(keys) && forall i: nat | Carried(i) :: ReplaceKey(d, USER_SEEDS, keys[6], user, keys[i]) == keys[i]
  {
    hide FIXED, USER_SEEDS, ReplaceKey;
    var back := ThereAndBack(d, keys, user, userAta);
    assert |back| == 16;
    assert back == keys <==> forall i | 0 <= i < 16 :: back[i] == keys[i];
  }

  /** In particular when none of those slots is one of the source user's own accounts. */
  lemma RoundTrip(d: Derivation, keys: seq<Pubkey>, user: Pubkey, userAta: Pubkey)
    requires IsSellList(keys)
    requires forall i: nat | Carried(i) :: !IsUserPda(d, USER_SEEDS, keys[6], keys[i])
    ensures ThereAndBack(d, keys, user, userAta) == keys
  {
    forall i: nat | Carried(i)
      ensures ReplaceKey(d, USER_SEEDS, keys[6], user, keys[i]) == keys[i]
    {
      ReplaceKeyFacts(d, USER_SEEDS, keys[6], user, keys[i]);
    }
    RoundTripIff(d, keys, user, userAta);
  }

  /**
   * A sell list is itself a mirror: rebuilding it for the same user changes nothing, except for a cashback
   * token. Its 17 slots are read as if the volume account were not there, so the rebuilt list is right only
   * if the three trailing accounts coincide.
   */
  lemma RebuiltSellIff(d: Derivation, user: Pubkey, userAta: Pubkey, mirror: seq<Pubkey>, tokenProgram: Pubkey, cashback: bool)
    ensures var sell := SellKeys(d, user, userAta, mirror, tokenProgram, cashback);
      SellKeys(d, user, userAta, sell, tokenProgram, cashback) == sell <==> (cashback ==> sell[14] == sell[15] == sell[16])
  {
    hide FIXED;
    var sell := SellKeys(d, user, userAta, mirror, tokenProgram, cashback);
    var again := SellKeys(d, user, userAta, sell, tokenProgram, cashback);
    assert again == sell <==> forall i | 0 <= i < |sell| :: again[i] == sell[i];
    assert cashback ==> again[15] == sell[14] && again[16] == sell[15] && again[14] == sell[14];
  }

  /** Where the lists that one sell has from two mirrors of the same shared slots agree. */
  lemma EqualSellsIff(d: Derivation, user: Pubkey, userAta: Pubkey, a: seq<Pubkey>, b: seq<Pubkey>, tokenProgram: Pubkey, cashback: bool)
    requires |a| >= 16 && |b| >= 16 && a[..5] == b[..5]
    ensures SellKeys(d, user, userAta, a, tokenProgram, cashback) == SellKeys(d, user, userAta, b, tokenProgram, cashback)
      <==> MovedSellSlots(d, a) == MovedSellSlots(d, b)
  {
    hide FIXED, MovedSellSlots;
    forall i: nat | i < 5 ensures a[i] == b[i] {
      assert a[..5][i] == b[..5][i];
    }
    var x, y := SellKeys(d, user, userAta, a, tokenProgram, cashback), SellKeys(d, user, userAta, b, tokenProgram, cashback);
    var n := |x|;
    assert MovedSellSlots(d, a) == (x[8], x[n - 2], x[n - 1]) && MovedSellSlots(d, b) == (y[8], y[n - 2], y[n - 1]);
    assert x == y <==> forall i | 0 <= i < n :: x[i] == y[i];
  }

  /**
   * The sell copied from a buy of ours names the same accounts: vault and token program change places, the global volume
   * account goes, and our own one goes too unless the token pays cashback.
   */
  lemma SellFollowsBuy(d: Derivation, user: Pubkey, userAta: Pubkey, source: Pubkey, mirror: seq<Pubkey>, cashback: bool)
    ensures var buy := BuyKeys(d, user, userAta, source, mirror);
      var sell := SellKeys(d, user, userAta, buy, buy[8], cashback);
      sell == buy[..8] + [buy[9], buy[8]] + buy[10..12] + buy[14..16] + (if cashback then [buy[13]] else []) + buy[16..]
  {
    hide ReplaceUserPdas, MovedBuySlots, EffectiveSource, FIXED;
    var buy := BuyKeys(d, user, userAta, source, mirror);
    var sell := SellKeys(d, user, userAta, buy, buy[8], cashback);
    assert sell[..8] == buy[..8] && sell[8..10] == [buy[9], buy[8]];
    assert sell[10..12] == buy[10..12] && sell[12..14] == buy[14..16];
    assert sell[14..] == (if cashback then [buy[13]] else []) + buy[16..];
    assert sell == sell[..8] + sell[8..10] + sell[10..12] + sell[12..14] + sell[14..];
  }

  /**
   * Buys know the old layout of 17 slots, sells do not: they take it for a sell list.  The sell from an old buy list is
   * the one from the full list exactly if token program and vault coincide, slots 14 and 16 do, and slot 15 holds the
   * account that the old list lacks.
   */
  lemma OldBuySellsRightIff(d: Derivation, user: Pubkey, userAta: Pubkey, buy: seq<Pubkey>, authority: Pubkey, tokenProgram: Pubkey, cashback: bool)
    requires |buy| == 17
    ensures SellKeys(d, user, userAta, buy, tokenProgram, cashback) == SellKeys(d, user, userAta, buy + [authority], tokenProgram, cashback)
      <==> buy[8] == buy[9] && buy[14] == buy[16] && buy[15] == authority
  {
    hide SellKeys;
    var full := buy + [authority];
    assert full[..5] == buy[..5] && full[9] == buy[9] && full[16] == buy[16] && full[17] == authority;
    EqualSellsIff(d, user, userAta, buy, full, tokenProgram, cashback);
  }

  /** From the old part of a native buy list the sell names the token program as the creator's vault. */
  lemma OldBuySellsToTokenProgram(d: Derivation, user: Pubkey, userAta: Pubkey, mint: Pubkey, tokenProgram: Pubkey, curve: Wire.Curve,
                                  cashback: bool)
    requires NativeBuyKeys(d, user, mint, userAta, tokenProgram, curve).Some?
    ensures var native := NativeBuyKeys(d, user, mint, userAta, tokenProgram, curve).value;
      && SellKeys(d, user, userAta, native[..17], tokenProgram, cashback)[8] == tokenProgram
      && SellKeys(d, user, userAta, native, tokenProgram, cashback)[8] == native[9]
  {
    hide FIXED;
  }

  /** A list that is too short to be validated leaves vault and token program blank; only a sell derives what it can from the mint. */
  lemma ShortMirrorsLeaveBlanks(d: Derivation, user: Pubkey, userAta: Pubkey, source: Pubkey, mirror: seq<Pubkey>, tokenProgram: Pubkey, cashback: bool)
    requires 2 < |mirror| < 16
    ensures var buy := BuyKeys(d, user, userAta, source, mirror);
      buy[8..10] == [DEFAULT_KEY, DEFAULT_KEY] && buy[16..] == [FIXED.buybackFeeRecipient, DEFAULT_KEY]
    ensures var sell := SellKeys(d, user, userAta, mirror, tokenProgram, cashback);
      && sell[8..10] == [DEFAULT_KEY, tokenProgram]
      && sell[|sell| - 2..] == [d.pda(BondingCurveV2, Some(mirror[2])), FIXED.buybackFeeRecipient]
  {
    hide FIXED, ReplaceUserPdas, EffectiveSource;
  }

  /** Two buy lists compared piece by piece: the shared slots, the fixed ones, and the four that move. */
  lemma EqualBuysIff(a: seq<Pubkey>, b: seq<Pubkey>)
    requires |a| == 18 && |b| == 18
    ensures a == b <==>
      && a[..5] == b[..5] && a[5..8] == b[5..8] && a[10..16] == b[10..16]
      && a[8] == b[8] && a[9] == b[9] && a[16] == b[16] && a[17] == b[17]
  {
    assert a == a[..5] + a[5..8] + [a[8]] + [a[9]] + a[10..16] + [a[16]] + [a[17]];
    assert b == b[..5] + b[5..8] + [b[8]] + [b[9]] + b[10..16] + [b[16]] + [b[17]];
  }

  /**
   * A 17-slot list is taken for an old buy, so a buy copied from a cashback sell has vault and token program
   * exchanged and the last two accounts lost.  It equals the buy copied from the plain sell list of the same mirror
   * exactly if vault and token program coincide and the last two are the placeholders.
   */
  lemma CashbackSellBuysRightIff(d: Derivation, user: Pubkey, userAta: Pubkey, source: Pubkey, other: Pubkey, otherAta: Pubkey,
                                 mirror: seq<Pubkey>, tokenProgram: Pubkey)
    ensures var cashback := SellKeys(d, other, otherAta, mirror, tokenProgram, true);
      var plain := SellKeys(d, other, otherAta, mirror, tokenProgram, false);
      var (vault, curveV2, breakingFee) := MovedSellSlots(d, mirror);
      BuyKeys(d, user, userAta, source, cashback) == BuyKeys(d, user, userAta, source, plain) <==>
        && ReplaceKey(d, USER_SEEDS, other, user, vault) == ReplaceKey(d, USER_SEEDS, other, user, tokenProgram)
        && ReplaceKey(d, USER_SEEDS, other, user, curveV2) == FIXED.buybackFeeRecipient
        && ReplaceKey(d, USER_SEEDS, other, user, breakingFee) == DEFAULT_KEY
  {
    hide FIXED, DEFAULT_KEY, USER_SEEDS, ReplaceKey, BuyKeys, SellKeys, MovedSellSlots;
    var cashback := SellKeys(d, other, otherAta, mirror, tokenProgram, true);
    var plain := SellKeys(d, other, otherAta, mirror, tokenProgram, false);
    SellSlots(d, other, otherAta, mirror, tokenProgram, true);
    SellSlots(d, other, otherAta, mirror, tokenProgram, false);
    BuySlots(d, user, userAta, source, cashback);
    BuySlots(d, user, userAta, source, plain);
    var a, b := BuyKeys(d, user, userAta, source, cashback), BuyKeys(d, user, userAta, source, plain);
    assert forall i: nat | i < 5 :: a[..5][i] == a[i] == b[i] == b[..5][i];
    assert a[..5] == b[..5];
    EqualBuysIff(a, b);
  }

  /** In particular it does not when neither is one of the seller's own accounts and they differ. */
  lemma CashbackSellBuysWrongly(d: Derivation, user: Pubkey, userAta: Pubkey, source: Pubkey, other: Pubkey, otherAta: Pubkey,
                                mirror: seq<Pubkey>, tokenProgram: Pubkey)
    requires var vault := MovedSellSlots(d, mirror).0;
      vault != tokenProgram && !IsUserPda(d, USER_SEEDS, other, vault) && !IsUserPda(d, USER_SEEDS, other, tokenProgram)
    ensures BuyKeys(d, user, userAta, source, SellKeys(d, other, otherAta, mirror, tokenProgram, true))
      != BuyKeys(d, user, userAta, source, SellKeys(d, other, otherAta, mirror, tokenProgram, false))
  {
    hide *;
    ReplaceKeyFacts(d, USER_SEEDS, other, user, MovedSellSlots(d, mirror).0);
    ReplaceKeyFacts(d, USER_SEEDS, other, user, tokenProgram);
    CashbackSellBuysRightIff(d, user, userAta, source, other, otherAta, mirror, tokenProgram);
  }

  lemma SellSlots(d: Derivation, user: Pubkey, userAta: Pubkey, mirror: seq<Pubkey>, tokenProgram: Pubkey, cashback: bool)
    ensures var sell := SellKeys(d, user, userAta, mirror, tokenProgram, cashback);
      var (vault, curveV2, breakingFee) := MovedSellSlots(d, mirror);
      && sell[..5] == SellKeys(d, user, userAta, mirror, tokenProgram, false)[..5]
      && sell[6] == user && sell[8] == vault && sell[9] == tokenProgram
      && sell[|sell| - 2] == curveV2 && sell[|sell| - 1] == breakingFee
  {
    hide FIXED, DEFAULT_KEY, MovedSellSlots;
  }

  /** Where the slots of a buy come from, for the two lengths of a sell list. */
  lemma BuySlots(d: Derivation, user: Pubkey, userAta: Pubkey, source: Pubkey, sell: seq<Pubkey>)
    requires 16 <= |sell| <= 17
    ensures var buy := BuyKeys(d, user, userAta, source, sell);
      && (forall i: nat | i < 5 :: buy[i] == ReplaceKey(d, USER_SEEDS, sell[6], user, sell[..5][i]))
      && buy[5..8] == [userAta, user, FIXED.systemProgram]
      && buy[8] == ReplaceKey(d, USER_SEEDS, sell[6], user, if |sell| == 17 then sell[8] else sell[9])
      && buy[9] == ReplaceKey(d, USER_SEEDS, sell[6], user, if |sell| == 17 then sell[9] else sell[8])
      && buy[10..16] == [FIXED.eventAuthority, FIXED.program, d.pda(GlobalVolumeAccumulator, None),
                         d.pda(UserVolumeAccumulator, Some(user)), FIXED.feeConfig, FIXED.feeProgram]
      && buy[16] == (if |sell| == 17 then FIXED.buybackFeeRecipient else ReplaceKey(d, USER_SEEDS, sell[6], user, sell[14]))
      && buy[17] == (if |sell| == 17 then DEFAULT_KEY else ReplaceKey(d, USER_SEEDS, sell[6], user, sell[15]))
  {
    hide FIXED, DEFAULT_KEY, USER_SEEDS, ReplaceKey;
  }

  /** Where each slot of that buy comes from. */
  lemma SynthesizedSlots(d: Derivation, user: Pubkey, mint: Pubkey, userAta: Pubkey, tokenProgram: Pubkey, authority: Pubkey, source: Pubkey,
                         curve: Wire.Curve)
    requires curve.creator.Some? && d.text(curve.creator.value) == authority && !curve.mayhem
    ensures var mirror := SynthSellMirror(d, mint, authority, tokenProgram);
      var native := NativeBuyKeys(d, user, mint, userAta, tokenProgram, curve);
      var buy := BuyKeys(d, user, userAta, source, mirror);
      && native.Some? && |native.value| == 18
      && mirror[..5] == native.value[..5] && mirror[8] == native.value[9] && mirror[9] == native.value[8]
      && mirror[14] == native.value[16] && mirror[15] == authority
      && (forall i: nat | i < 5 :: buy[i] == ReplaceKey(d, USER_SEEDS, DEFAULT_KEY, user, mirror[i]))
      && buy[9] == ReplaceKey(d, USER_SEEDS, DEFAULT_KEY, user, mirror[8])
      && buy[8] == ReplaceKey(d, USER_SEEDS, DEFAULT_KEY, user, mirror[9])
      && buy[16] == ReplaceKey(d, USER_SEEDS, DEFAULT_KEY, user, mirror[14])
      && buy[17] == ReplaceKey(d, USER_SEEDS, DEFAULT_KEY, user, mirror[15])
      && (forall i: nat | i in {5, 6, 7, 10, 11, 12, 13, 14, 15} :: buy[i] == native.value[i])
  {
    hide FIXED, USER_SEEDS, ReplaceKey;
  }

  /**
   * The buy made from a synthesized sell list is the native one of an ordinary curve created by that
   * authority, with the authority in slot 17, exactly when replacing the blank user's accounts touches none
   * of the slots carried over.
   */
  lemma SynthesizedMirrorIff(d: Derivation, user: Pubkey, mint: Pubkey, userAta: Pubkey, tokenProgram: Pubkey, authority: Pubkey, source: Pubkey,
                         curve: Wire.Curve)
    requires curve.creator.Some? && d.text(curve.creator.value) == authority && !curve.mayhem
    ensures var mirror := SynthSellMirror(d, mint, authority, tokenProgram);
      var native := NativeBuyKeys(d, user, mint, userAta, tokenProgram, curve).value;
      BuyKeys(d, user, userAta, source, mirror) == native[17 := authority] <==>
        forall i: nat | Carried(i) || i == 9 :: ReplaceKey(d, USER_SEEDS, DEFAULT_KEY, user, mirror[i]) == mirror[i]
  {
    hide BuyKeys, SynthSellMirror, NativeBuyKeys, FIXED, USER_SEEDS, ReplaceKey;
    SynthesizedSlots(d, user, mint, userAta, tokenProgram, authority, source, curve);
    var mirror := SynthSellMirror(d, mint, authority, tokenProgram);
    var native := NativeBuyKeys(d, user, mint, userAta, tokenProgram, curve).value;
    var target := native[17 := authority];
    var buy := BuyKeys(d, user, userAta, source, mirror);
    EqualBuysIff(buy, target);
    forall i: nat | i < 5 ensures target[..5][i] == target[i] == native[..5][i] == mirror[..5][i] == mirror[i] {
    }
    assert buy[..5] == target[..5] <==> forall i: nat | i < 5 :: buy[..5][i] == target[..5][i];
    assert forall i: nat | i < 5 :: buy[..5][i] == buy[i];
    assert buy[5..8] == target[5..8] && buy[10..16] == target[10..16];
  }

  /** In particular when none of those slots is an account of the blank user. */
  lemma SynthesizedMirrorBuysNatively(d: Derivation, user: Pubkey, mint: Pubkey, userAta: Pubkey, tokenProgram: Pubkey, authority: Pubkey, source: Pubkey,
                                      curve: Wire.Curve)
    requires curve.creator.Some? && d.text(curve.creator.value) == authority && !curve.mayhem
    requires forall i: nat | Carried(i) || i == 9 ::
      !IsUserPda(d, USER_SEEDS, DEFAULT_KEY, SynthSellMirror(d, mint, authority, tokenProgram)[i])
    ensures BuyKeys(d, user, userAta, source, SynthSellMirror(d, mint, authority, tokenProgram))
      == NativeBuyKeys(d, user, mint, userAta, tokenProgram, curve).value[17 := authority]
  {
    hide FIXED, USER_SEEDS, ReplaceKey, IsUserPda, BuyKeys, SynthSellMirror, NativeBuyKeys;
    var mirror := SynthSellMirror(d, mint, authority, tokenProgram);
    assert |mirror| == 16;
    forall i: nat | Carried(i) || i == 9
      ensures ReplaceKey(d, USER_SEEDS, DEFAULT_KEY, user, mirror[i]) == mirror[i]
    {
      ReplaceKeyFacts(d, USER_SEEDS, DEFAULT_KEY, user, mirror[i]);
    }
    SynthesizedMirrorIff(d, user, mint, userAta, tokenProgram, authority, source, curve);
  }
}
