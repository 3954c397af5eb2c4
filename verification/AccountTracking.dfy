/** Which accounts the bot listens to: two address-to-mint indexes, their union, pruning and resubscription. */
module AccountTracking {
  import opened Common
  import Wire

  datatype Kind = CurveAccount | TokenAccount

  datatype Index = Index(
    curves: map<Pubkey, Pubkey>,
    atas: map<Pubkey, Pubkey>,
    touched: map<Pubkey, nat>,
    subscribed: map<Pubkey, Kind>,
    curveCache: map<Pubkey, Wire.Curve>,
    balances: map<Pubkey, u64>)

  datatype Update =
    | CurveUpdate(mint: Pubkey, address: Pubkey, state: Wire.Curve)
    | BalanceUpdate(mint: Pubkey, address: Pubkey, amount: u64)

  // ---- What each operation does ----

  function Track(i: Index, kind: Kind, mint: Pubkey, address: Pubkey, now: nat): Index
  {
    var j := i.(touched := i.touched[mint := now], subscribed := i.subscribed[address := kind]);
    match kind
    case CurveAccount => j.(curves := i.curves[address := mint])
    case TokenAccount => j.(atas := i.atas[address := mint])
  }

  function AddressesOf(index: map<Pubkey, Pubkey>, mints: set<Pubkey>): set<Pubkey>
  {
    set a | a in index && index[a] in mints
  }

  function Untracked(i: Index, mints: set<Pubkey>): Index
  {
    Index(
      i.curves - AddressesOf(i.curves, mints),
      i.atas - AddressesOf(i.atas, mints),
      i.touched - mints,
      i.subscribed - (AddressesOf(i.curves, mints) + AddressesOf(i.atas, mints)),
      i.curveCache - mints,
      i.balances - mints)
  }

  predicate Live(i: Index, mint: Pubkey, active: set<Pubkey>, maxIdle: nat, now: nat)
  {
    mint in active || (mint in i.touched && Elapsed(now, i.touched[mint]) < maxIdle)
  }

  function Stale(i: Index, active: set<Pubkey>, maxIdle: nat, now: nat): set<Pubkey>
  {
    set m | m in i.touched && !Live(i, m, active, maxIdle, now)
  }

  /** The balance field of a token account, or zero when the account is too short to have one. */
  function BalanceIn(data: seq<byte>): u64
  {
    if |data| >= 72 then Wire.U64At(data, 64) else 0
  }

  /** An update is routed by the kind the address is subscribed as; unreadable curves are dropped. */
  function Received(i: Index, address: Pubkey, data: seq<byte>): Option<Update>
  {
    if address !in i.subscribed then None else
    match i.subscribed[address]
    case CurveAccount =>
      var state := Wire.DecodeCurve(data);
      if address in i.curves && state.Ok? then Some(CurveUpdate(i.curves[address], address, state.value)) else None
    case TokenAccount =>
      if address in i.atas then Some(BalanceUpdate(i.atas[address], address, BalanceIn(data))) else None
  }

  function AfterUpdate(i: Index, update: Option<Update>): Index
  {
    match update
    case None => i
    case Some(CurveUpdate(mint, _, state)) => i.(curveCache := i.curveCache[mint := state])
    case Some(BalanceUpdate(mint, _, amount)) => i.(balances := i.balances[mint := amount])
  }

  // ---- The subscriber ----

  class AccountSubscriber {
    var bondingCurveToMint: map<Pubkey, Pubkey>
    var ataToMint: map<Pubkey, Pubkey>
    var mintLastTouched: map<Pubkey, nat>
    var subscribedAccounts: map<Pubkey, Kind>
    var bcCache: map<Pubkey, Wire.Curve>
    var ataCache: map<Pubkey, u64>

    ghost function View(): Index
      reads this
    {
      Index(bondingCurveToMint, ataToMint, mintLastTouched, subscribedAccounts, bcCache, ataCache)
    }

    constructor ()
      ensures View() == Index(map[], map[], map[], map[], map[], map[])
    {
      bondingCurveToMint, ataToMint, mintLastTouched := map[], map[], map[];
      subscribedAccounts, bcCache, ataCache := map[], map[], map[];
    }

    method TrackBondingCurve(mint: Pubkey, bondingCurve: Pubkey, now: nat)
      modifies this
      ensures View() == Track(old(View()), CurveAccount, mint, bondingCurve, now)
    {
      bondingCurveToMint := bondingCurveToMint[bondingCurve := mint];
      mintLastTouched := mintLastTouched[mint := now];
      subscribedAccounts := subscribedAccounts[bondingCurve := CurveAccount];
    }

    method TrackAta(mint: Pubkey, ata: Pubkey, now: nat)
      modifies this
      ensures View() == Track(old(View()), TokenAccount, mint, ata, now)
    {
      ataToMint := ataToMint[ata := mint];
      mintLastTouched := mintLastTouched[mint := now];
      subscribedAccounts := subscribedAccounts[ata := TokenAccount];
    }

    /** The addresses that an index gives a mint, in the order a scan meets them. */
    static method Collect(index: map<Pubkey, Pubkey>, mint: Pubkey) returns (found: seq<Pubkey>)
      ensures Elements(found) == AddressesOf(index, {mint})
    {
      found := [];
      var rest := index.Keys;
      while rest != {}
        invariant rest <= index.Keys
        invariant forall a :: a in found <==> a in index && a !in rest && index[a] == mint
        decreases |rest|
      {
        var a :| a in rest;
        if index[a] == mint {
          found := found + [a];
        }
        rest := rest - {a};
      }
    }

    method RemoveCurves(addresses: seq<Pubkey>)
      modifies this`bondingCurveToMint, this`subscribedAccounts
      ensures bondingCurveToMint == old(bondingCurveToMint) - Elements(addresses)
      ensures subscribedAccounts == old(subscribedAccounts) - Elements(addresses)
    {
      for k := 0 to |addresses|
        invariant bondingCurveToMint == old(bondingCurveToMint) - Elements(addresses[..k])
        invariant subscribedAccounts == old(subscribedAccounts) - Elements(addresses[..k])
      {
        bondingCurveToMint := bondingCurveToMint - {addresses[k]};
        subscribedAccounts := subscribedAccounts - {addresses[k]};
        OneMoreElement(addresses, k);
      }
      assert addresses[..|addresses|] == addresses;
    }

    method RemoveAtas(addresses: seq<Pubkey>)
      modifies this`ataToMint, this`subscribedAccounts
      ensures ataToMint == old(ataToMint) - Elements(addresses)
      ensures subscribedAccounts == old(subscribedAccounts) - Elements(addresses)
    {
      for k := 0 to |addresses|
        invariant ataToMint == old(ataToMint) - Elements(addresses[..k])
        invariant subscribedAccounts == old(subscribedAccounts) - Elements(addresses[..k])
      {
        ataToMint := ataToMint - {addresses[k]};
        subscribedAccounts := subscribedAccounts - {addresses[k]};
        OneMoreElement(addresses, k);
      }
      assert addresses[..|addresses|] == addresses;
    }

    method UntrackMint(mint: Pubkey)
      modifies this
      ensures View() == Untracked(old(View()), {mint})
    {
      hide AddressesOf, Elements;
      var curves := Collect(bondingCurveToMint, mint);
      RemoveCurves(curves);
      var atas := Collect(ataToMint, mint);
      RemoveAtas(atas);
      RemovedTwice(old(subscribedAccounts), Elements(curves), Elements(atas));
      bcCache := bcCache - {mint};
      ataCache := ataCache - {mint};
      mintLastTouched := mintLastTouched - {mint};
    }

    method PruneStaleCandidateMints(active: set<Pubkey>, maxIdle: nat, now: nat) returns (pruned: nat)
      modifies this
      ensures View() == Untracked(old(View()), Stale(old(View()), active, maxIdle, now))
      ensures pruned == |Stale(old(View()), active, maxIdle, now)|
    {
      hide Untracked;
      var stale := set m | m in mintLastTouched && m !in active && Elapsed(now, mintLastTouched[m]) >= maxIdle;
      ghost var before := View();
      assert stale == Stale(before, active, maxIdle, now);
      var rest := stale;
      NothingUntracked(before);
      assert stale - rest == {};
      while rest != {}
        invariant rest <= stale
        invariant View() == Untracked(before, stale - rest)
        decreases |rest|
      {
        var mint :| mint in rest;
        UntrackMint(mint);
        UntrackedTwice(before, stale - rest, {mint});
        assert stale - rest + {mint} == stale - (rest - {mint});
        rest := rest - {mint};
      }
      assert stale - rest == stale;
      pruned := |stale|;
    }

    method HandleAccountUpdate(address: Pubkey, data: seq<byte>) returns (update: Option<Update>)
      modifies this
      ensures update == Received(old(View()), address, data)
      ensures View() == AfterUpdate(old(View()), update)
    {
      update := None;
      if address in subscribedAccounts {
        match subscribedAccounts[address]
        case CurveAccount =>
          if address in bondingCurveToMint {
            var mint := bondingCurveToMint[address];
            var state := Wire.DecodeCurve(data);
            if state.Ok? {
              bcCache := bcCache[mint := state.value];
              update := Some(CurveUpdate(mint, address, state.value));
            }
          }
        case TokenAccount =>
          if address in ataToMint {
            var mint := ataToMint[address];
            var amount := 0;
            if |data| >= 72 {
              amount := Wire.U64At(data, 64);
            }
            ataCache := ataCache[mint := amount];
            update := Some(BalanceUpdate(mint, address, amount));
          }
      }
    }
  }

  /** The balance of a token account is the eight bytes after its mint and its owner, whatever follows; a shorter account has none. */
  lemma BalanceReadsBack(mint: seq<byte>, owner: seq<byte>, amount: u64, rest: seq<byte>)
    requires |mint| == 32 && |owner| == 32
    ensures BalanceIn(mint + owner + Wire.Le64(amount) + rest) == amount
    ensures forall k: nat | k < 72 :: BalanceIn((mint + owner + Wire.Le64(amount))[..k]) == 0
  {
    hide Wire.Le64, Wire.U64At;
    var data := mint + owner + Wire.Le64(amount) + rest;
    assert data[64..72] == Wire.Le64(amount);
    Wire.U64AtIff(data, 64, amount);
  }

  lemma OneMoreElement(s: seq<Pubkey>, k: nat)
    requires k < |s|
    ensures Elements(s[..k + 1]) == Elements(s[..k]) + {s[k]}
  {
    assert s[..k + 1] == s[..k] + [s[k]];
  }

  lemma RemovedTwice<V>(m: map<Pubkey, V>, first: set<Pubkey>, second: set<Pubkey>)
    ensures m - first - second == m - (first + second)
  {
  }

  lemma NothingUntracked(i: Index)
    ensures Untracked(i, {}) == i
  {
  }

  lemma AddressesOfBoth(index: map<Pubkey, Pubkey>, first: set<Pubkey>, second: set<Pubkey>)
    ensures AddressesOf(index, first) + AddressesOf(index - AddressesOf(index, first), second)
      == AddressesOf(index, first + second)
  {
  }

  lemma UntrackedTwice(i: Index, first: set<Pubkey>, second: set<Pubkey>)
    ensures Untracked(Untracked(i, first), second) == Untracked(i, first + second)
  {
    hide AddressesOf;
    var j := Untracked(i, first);
    AddressesOfBoth(i.curves, first, second);
    AddressesOfBoth(i.atas, first, second);
    var curves, curves' := AddressesOf(i.curves, first), AddressesOf(j.curves, second);
    var atas, atas' := AddressesOf(i.atas, first), AddressesOf(j.atas, second);
    RemovedTwice(i.curves, curves, curves');
    RemovedTwice(i.atas, atas, atas');
    RemovedTwice(i.subscribed, curves + atas, curves' + atas');
    assert curves + atas + (curves' + atas') == (curves + curves') + (atas + atas');
    RemovedTwice(i.touched, first, second);
    RemovedTwice(i.curveCache, first, second);
    RemovedTwice(i.balances, first, second);
  }
}
