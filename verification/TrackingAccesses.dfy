/**
 * The separate map accesses of tracking and untracking: what every interleaving of them leaves behind, and the
 * interleavings that keep the subscribed addresses in step with the two indexes.
 */
module TrackingAccesses {
  import opened Common
  import opened AccountTracking
  import TrackingRuns

  datatype Access =
    | Link(kind: Kind, mint: Pubkey, address: Pubkey)
    | Touch(mint: Pubkey, now: nat)
    | Subscribe(kind: Kind, address: Pubkey)
    | Unlink(kind: Kind, address: Pubkey)
    | Unsubscribe(address: Pubkey)
    | DropCurve(mint: Pubkey)
    | DropBalance(mint: Pubkey)
    | Forget(mint: Pubkey)

  function Perform(i: Index, x: Access): Index
  {
    match x
    case Link(CurveAccount, mint, address) => i.(curves := i.curves[address := mint])
    case Link(TokenAccount, mint, address) => i.(atas := i.atas[address := mint])
    case Touch(mint, now) => i.(touched := i.touched[mint := now])
    case Subscribe(kind, address) => i.(subscribed := i.subscribed[address := kind])
    case Unlink(CurveAccount, address) => i.(curves := i.curves - {address})
    case Unlink(TokenAccount, address) => i.(atas := i.atas - {address})
    case Unsubscribe(address) => i.(subscribed := i.subscribed - {address})
    case DropCurve(mint) => i.(curveCache := i.curveCache - {mint})
    case DropBalance(mint) => i.(balances := i.balances - {mint})
    case Forget(mint) => i.(touched := i.touched - {mint})
  }

  function PerformAll(i: Index, trace: seq<Access>): Index
    decreases |trace|
  {
    if trace == [] then i else Perform(PerformAll(i, trace[..|trace| - 1]), trace[|trace| - 1])
  }

  /** An undisturbed tracking call is its three accesses in a row. */
  lemma UndisturbedTrack(i: Index, kind: Kind, mint: Pubkey, address: Pubkey, now: nat)
    ensures Track(i, kind, mint, address, now)
      == Perform(Perform(Perform(i, Link(kind, mint, address)), Touch(mint, now)), Subscribe(kind, address))
  {
  }

  /** The accesses of an untracking call to the addresses that one of its scans found. */
  function Removals(kind: Kind, found: seq<Pubkey>): seq<Access>
    decreases |found|
  {
    if found == [] then []
    else Removals(kind, found[..|found| - 1]) + [Unlink(kind, found[|found| - 1]), Unsubscribe(found[|found| - 1])]
  }

  lemma {:induction false} PerformAppend(i: Index, a: seq<Access>, b: seq<Access>)
    ensures PerformAll(i, a + b) == PerformAll(PerformAll(i, a), b)
    decreases |b|
  {
    hide Perform;
    if b == [] {
      assert a + b == a;
    } else {
      assert (a + b)[..|a + b| - 1] == a + b[..|b| - 1];
      PerformAppend(i, a, b[..|b| - 1]);
    }
  }

  lemma PerformTwo(i: Index, x: Access, y: Access)
    ensures PerformAll(i, [x, y]) == Perform(Perform(i, x), y)
  {
    hide Perform;
    assert [x, y][..1] == [x] && [x][..0] == [];
    assert PerformAll(i, [x]) == Perform(PerformAll(i, []), x);
  }

  lemma {:induction false} RemovalsRemove(i: Index, kind: Kind, found: seq<Pubkey>)
    ensures PerformAll(i, Removals(kind, found)) ==
      match kind
      case CurveAccount => i.(curves := i.curves - Elements(found), subscribed := i.subscribed - Elements(found))
      case TokenAccount => i.(atas := i.atas - Elements(found), subscribed := i.subscribed - Elements(found))
    decreases |found|
  {
    if found == [] {
      assert Elements(found) == {};
    } else {
      var init, last := found[..|found| - 1], found[|found| - 1];
      RemovalsRemove(i, kind, init);
      PerformAppend(i, Removals(kind, init), [Unlink(kind, last), Unsubscribe(last)]);
      PerformTwo(PerformAll(i, Removals(kind, init)), Unlink(kind, last), Unsubscribe(last));
      OneMoreElement(found, |init|);
      assert found[..|init| + 1] == found;
      hide Elements, Removals, PerformAll;
      RemovedTwice(i.curves, Elements(init), {last});
      RemovedTwice(i.atas, Elements(init), {last});
      RemovedTwice(i.subscribed, Elements(init), {last});
    }
  }

  /** An undisturbed untracking call, in whatever order its scans find the addresses, takes away all there is of the mint. */
  lemma UndisturbedUntrack(i: Index, mint: Pubkey, curves: seq<Pubkey>, atas: seq<Pubkey>)
    requires Elements(curves) == AddressesOf(i.curves, {mint}) && Elements(atas) == AddressesOf(i.atas, {mint})
    ensures PerformAll(i, Removals(CurveAccount, curves) + Removals(TokenAccount, atas) + [DropCurve(mint), DropBalance(mint)] + [Forget(mint)])
      == Untracked(i, {mint})
  {
    hide AddressesOf, Removals, Elements;
    var first, second := Removals(CurveAccount, curves), Removals(TokenAccount, atas);
    var j := PerformAll(i, first);
    var k := PerformAll(j, second);
    RemovalsRemove(i, CurveAccount, curves);
    RemovalsRemove(j, TokenAccount, atas);
    PerformAppend(i, first, second);
    PerformAppend(i, first + second, [DropCurve(mint), DropBalance(mint)]);
    PerformTwo(k, DropCurve(mint), DropBalance(mint));
    var all := first + second + [DropCurve(mint), DropBalance(mint)] + [Forget(mint)];
    assert all[..|all| - 1] == first + second + [DropCurve(mint), DropBalance(mint)];
  }

  // ---- What any interleaving leaves behind ----

  predicate Linked(i: Index, kind: Kind, address: Pubkey)
  {
    match kind
    case CurveAccount => address in i.curves
    case TokenAccount => address in i.atas
  }

  /** The address was put under its index and not taken out since. */
  ghost predicate LeftLinked(trace: seq<Access>, kind: Kind, address: Pubkey)
  {
    exists j :: 0 <= j < |trace| && LinksForGood(trace, kind, address, j)
  }

  ghost predicate LinksForGood(trace: seq<Access>, kind: Kind, address: Pubkey, j: nat)
    requires j < |trace|
  {
    trace[j].Link? && trace[j].kind == kind && trace[j].address == address && Unlink(kind, address) !in trace[j + 1..]
  }

  ghost predicate LeftSubscribed(trace: seq<Access>, address: Pubkey)
  {
    exists j :: 0 <= j < |trace| && SubscribesForGood(trace, address, j)
  }

  ghost predicate SubscribesForGood(trace: seq<Access>, address: Pubkey, j: nat)
    requires j < |trace|
  {
    trace[j].Subscribe? && trace[j].address == address && Unsubscribe(address) !in trace[j + 1..]
  }

  ghost predicate LeftTouched(trace: seq<Access>, mint: Pubkey)
  {
    exists j :: 0 <= j < |trace| && TouchesForGood(trace, mint, j)
  }

  ghost predicate TouchesForGood(trace: seq<Access>, mint: Pubkey, j: nat)
    requires j < |trace|
  {
    trace[j].Touch? && trace[j].mint == mint && Forget(mint) !in trace[j + 1..]
  }

  const EMPTY: Index := TrackingRuns.EMPTY

  lemma TailOfLonger(trace: seq<Access>, j: nat, x: Access)
    requires j < |trace| - 1
    ensures x !in trace[j + 1..] <==> x !in trace[..|trace| - 1][j + 1..] && trace[|trace| - 1] != x
  {
    assert trace[j + 1..] == trace[..|trace| - 1][j + 1..] + [trace[|trace| - 1]];
  }

  predicate Links(x: Access, kind: Kind, address: Pubkey)
  {
    x.Link? && x.kind == kind && x.address == address
  }

  lemma LeftLinkedLonger(trace: seq<Access>, kind: Kind, address: Pubkey)
    requires trace != []
    ensures var init, last := trace[..|trace| - 1], trace[|trace| - 1];
      LeftLinked(trace, kind, address) <==>
        Links(last, kind, address) || (LeftLinked(init, kind, address) && last != Unlink(kind, address))
  {
    var init, last := trace[..|trace| - 1], trace[|trace| - 1];
    forall j | 0 <= j < |init|
      ensures LinksForGood(trace, kind, address, j) <==> LinksForGood(init, kind, address, j) && last != Unlink(kind, address)
    {
      TailOfLonger(trace, j, Unlink(kind, address));
    }
    assert LinksForGood(trace, kind, address, |trace| - 1) <==> Links(last, kind, address);
  }

  lemma LinkedAfter(i: Index, x: Access, kind: Kind, address: Pubkey)
    ensures Linked(Perform(i, x), kind, address) <==>
      Links(x, kind, address) || (Linked(i, kind, address) && x != Unlink(kind, address))
  {
  }

  lemma {:induction false} LinkedIff(trace: seq<Access>, kind: Kind, address: Pubkey)
    ensures Linked(PerformAll(EMPTY, trace), kind, address) <==> LeftLinked(trace, kind, address)
    decreases |trace|
  {
    hide Perform, LeftLinked, Links;
    if trace != [] {
      var init, last := trace[..|trace| - 1], trace[|trace| - 1];
      LinkedIff(init, kind, address);
      LeftLinkedLonger(trace, kind, address);
      LinkedAfter(PerformAll(EMPTY, init), last, kind, address);
    } else {
      NothingLeft(kind, address, "");
    }
  }

  lemma NothingLeft(kind: Kind, address: Pubkey, mint: Pubkey)
    ensures !LeftLinked([], kind, address) && !LeftSubscribed([], address) && !LeftTouched([], mint)
  {
  }

  lemma LeftSubscribedLonger(trace: seq<Access>, address: Pubkey)
    requires trace != []
    ensures var init, last := trace[..|trace| - 1], trace[|trace| - 1];
      LeftSubscribed(trace, address) <==>
        (last.Subscribe? && last.address == address) || (LeftSubscribed(init, address) && last != Unsubscribe(address))
  {
    var init, last := trace[..|trace| - 1], trace[|trace| - 1];
    forall j | 0 <= j < |init|
      ensures SubscribesForGood(trace, address, j) <==> SubscribesForGood(init, address, j) && last != Unsubscribe(address)
    {
      TailOfLonger(trace, j, Unsubscribe(address));
    }
    assert SubscribesForGood(trace, address, |trace| - 1) <==> last.Subscribe? && last.address == address;
  }

  lemma SubscribedAfter(i: Index, x: Access, address: Pubkey)
    ensures address in Perform(i, x).subscribed <==>
      (x.Subscribe? && x.address == address) || (address in i.subscribed && x != Unsubscribe(address))
  {
  }

  lemma {:induction false} SubscribedIff(trace: seq<Access>, address: Pubkey)
    ensures address in PerformAll(EMPTY, trace).subscribed <==> LeftSubscribed(trace, address)
    decreases |trace|
  {
    hide Perform, LeftSubscribed;
    if trace != [] {
      var init, last := trace[..|trace| - 1], trace[|trace| - 1];
      SubscribedIff(init, address);
      LeftSubscribedLonger(trace, address);
      SubscribedAfter(PerformAll(EMPTY, init), last, address);
    } else {
      NothingLeft(CurveAccount, address, "");
    }
  }

  lemma LeftTouchedLonger(trace: seq<Access>, mint: Pubkey)
    requires trace != []
    ensures var init, last := trace[..|trace| - 1], trace[|trace| - 1];
      LeftTouched(trace, mint) <==>
        (last.Touch? && last.mint == mint) || (LeftTouched(init, mint) && last != Forget(mint))
  {
    var init, last := trace[..|trace| - 1], trace[|trace| - 1];
    forall j | 0 <= j < |init|
      ensures TouchesForGood(trace, mint, j) <==> TouchesForGood(init, mint, j) && last != Forget(mint)
    {
      TailOfLonger(trace, j, Forget(mint));
    }
    assert TouchesForGood(trace, mint, |trace| - 1) <==> last.Touch? && last.mint == mint;
  }

  lemma TouchedAfter(i: Index, x: Access, mint: Pubkey)
    ensures mint in Perform(i, x).touched <==>
      (x.Touch? && x.mint == mint) || (mint in i.touched && x != Forget(mint))
  {
  }

  lemma {:induction false} TouchedIff(trace: seq<Access>, mint: Pubkey)
    ensures mint in PerformAll(EMPTY, trace).touched <==> LeftTouched(trace, mint)
    decreases |trace|
  {
    hide Perform, LeftTouched;
    if trace != [] {
      var init, last := trace[..|trace| - 1], trace[|trace| - 1];
      TouchedIff(init, mint);
      LeftTouchedLonger(trace, mint);
      TouchedAfter(PerformAll(EMPTY, init), last, mint);
    } else {
      NothingLeft(CurveAccount, "", mint);
    }
  }

  /** Every address is derived for one mint and one kind of account. */
  type Homes = map<Pubkey, (Kind, Pubkey)>

  /** An address is subscribed exactly if it is indexed, and then its mint has a touch time. */
  predicate SoundAt(i: Index, homes: Homes, address: Pubkey)
    requires address in homes
  {
    var (kind, mint) := homes[address];
    (Linked(i, kind, address) <==> address in i.subscribed) && (Linked(i, kind, address) ==> mint in i.touched)
  }

  /** The exact condition, for every interleaving of any accesses from the start. */
  lemma SoundAtIff(trace: seq<Access>, homes: Homes, address: Pubkey)
    requires address in homes
    ensures var (kind, mint) := homes[address];
      SoundAt(PerformAll(EMPTY, trace), homes, address) <==>
        && (LeftLinked(trace, kind, address) <==> LeftSubscribed(trace, address))
        && (LeftLinked(trace, kind, address) ==> LeftTouched(trace, mint))
  {
    var (kind, mint) := homes[address];
    LinkedIff(trace, kind, address);
    SubscribedIff(trace, address);
    TouchedIff(trace, mint);
  }

  // ---- One tracking call and one untracking call ----

  /** The accesses of a tracking call, at increasing positions. */
  predicate TrackedAt(trace: seq<Access>, kind: Kind, mint: Pubkey, address: Pubkey, link: nat, touch: nat, subscribe: nat)
  {
    && link < touch < subscribe < |trace|
    && trace[link] == Link(kind, mint, address) && trace[touch].Touch? && trace[touch].mint == mint
    && trace[subscribe] == Subscribe(kind, address)
  }

  /** The accesses to this address and mint of an untracking call that found the address. */
  predicate UntrackedAt(trace: seq<Access>, kind: Kind, mint: Pubkey, address: Pubkey, unlink: nat, unsubscribe: nat, forget: nat)
  {
    && unlink < unsubscribe < forget < |trace|
    && trace[unlink] == Unlink(kind, address) && trace[unsubscribe] == Unsubscribe(address) && trace[forget] == Forget(mint)
  }

  /** No access to the address or the mint but these. */
  predicate Elsewhere(trace: seq<Access>, kind: Kind, mint: Pubkey, address: Pubkey, except: set<nat>)
  {
    forall j: nat | j < |trace| && j !in except :: match trace[j]
      case Link(k, _, a) => k != kind || a != address
      case Unlink(k, a) => k != kind || a != address
      case Touch(m, _) => m != mint
      case Forget(m) => m != mint
      case Subscribe(_, a) => a != address
      case Unsubscribe(a) => a != address
      case DropCurve(_) => true
      case DropBalance(_) => true
  }

  /**
   * However the two calls interleave, the address ends up sound exactly if the tracking call subscribed before the
   * other unsubscribed and linked before it unlinked, or the untracking call had unlinked before the link and had
   * forgotten the mint before the touch.
   */
  lemma TwoCallsIff(trace: seq<Access>, homes: Homes, kind: Kind, mint: Pubkey, address: Pubkey,
                    link: nat, touch: nat, subscribe: nat, unlink: nat, unsubscribe: nat, forget: nat)
    requires address in homes && homes[address] == (kind, mint)
    requires TrackedAt(trace, kind, mint, address, link, touch, subscribe)
    requires UntrackedAt(trace, kind, mint, address, unlink, unsubscribe, forget)
    requires Elsewhere(trace, kind, mint, address, {link, touch, subscribe, unlink, unsubscribe, forget})
    ensures SoundAt(PerformAll(EMPTY, trace), homes, address) <==>
      (link < unlink && subscribe < unsubscribe) || (unlink < link && forget < touch)
  {
    hide PerformAll, SoundAt;
    SoundAtIff(trace, homes, address);
    LeftLinkedOnce(trace, kind, mint, address, link, unlink);
    LeftSubscribedOnce(trace, kind, address, subscribe, unsubscribe);
    LeftTouchedOnce(trace, mint, touch, forget);
  }

  /** If the scan of the untracking call missed the address, what matters is only when the mint was forgotten. */
  lemma MissedByScanIff(trace: seq<Access>, homes: Homes, kind: Kind, mint: Pubkey, address: Pubkey,
                        link: nat, touch: nat, subscribe: nat, forget: nat)
    requires address in homes && homes[address] == (kind, mint)
    requires TrackedAt(trace, kind, mint, address, link, touch, subscribe)
    requires forget < |trace| && trace[forget] == Forget(mint)
    requires Elsewhere(trace, kind, mint, address, {link, touch, subscribe, forget})
    ensures SoundAt(PerformAll(EMPTY, trace), homes, address) <==> forget < touch
  {
    hide PerformAll, SoundAt;
    SoundAtIff(trace, homes, address);
    assert Unlink(kind, address) !in trace[link + 1..] && Unsubscribe(address) !in trace[subscribe + 1..];
    assert LinksForGood(trace, kind, address, link) && SubscribesForGood(trace, address, subscribe);
    LeftTouchedOnce(trace, mint, touch, forget);
  }

  lemma LeftLinkedOnce(trace: seq<Access>, kind: Kind, mint: Pubkey, address: Pubkey, link: nat, unlink: nat)
    requires link < |trace| && unlink < |trace| && trace[link] == Link(kind, mint, address) && trace[unlink] == Unlink(kind, address)
    requires forall j | 0 <= j < |trace| && j != link && trace[j].Link? :: trace[j].kind != kind || trace[j].address != address
    requires forall j | 0 <= j < |trace| && j != unlink :: trace[j] != Unlink(kind, address)
    ensures LeftLinked(trace, kind, address) <==> unlink < link
  {
    if unlink < link {
      assert LinksForGood(trace, kind, address, link);
    } else {
      assert trace[link + 1..][unlink - link - 1] == Unlink(kind, address);
    }
  }

  lemma LeftSubscribedOnce(trace: seq<Access>, kind: Kind, address: Pubkey, subscribe: nat, unsubscribe: nat)
    requires subscribe < |trace| && unsubscribe < |trace|
    requires trace[subscribe] == Subscribe(kind, address) && trace[unsubscribe] == Unsubscribe(address)
    requires forall j | 0 <= j < |trace| && j != subscribe && trace[j].Subscribe? :: trace[j].address != address
    requires forall j | 0 <= j < |trace| && j != unsubscribe :: trace[j] != Unsubscribe(address)
    ensures LeftSubscribed(trace, address) <==> unsubscribe < subscribe
  {
    if unsubscribe < subscribe {
      assert SubscribesForGood(trace, address, subscribe);
    } else {
      assert trace[subscribe + 1..][unsubscribe - subscribe - 1] == Unsubscribe(address);
    }
  }

  lemma LeftTouchedOnce(trace: seq<Access>, mint: Pubkey, touch: nat, forget: nat)
    requires touch < |trace| && forget < |trace|
    requires trace[touch].Touch? && trace[touch].mint == mint && trace[forget] == Forget(mint)
    requires forall j | 0 <= j < |trace| && j != touch && trace[j].Touch? :: trace[j].mint != mint
    requires forall j | 0 <= j < |trace| && j != forget :: trace[j] != Forget(mint)
    ensures LeftTouched(trace, mint) <==> forget < touch
  {
    if forget < touch {
      assert TouchesForGood(trace, mint, touch);
    } else {
      assert trace[touch + 1..][forget - touch - 1] == Forget(mint);
    }
  }

  /** The untracking call falls between the first and the second access of the tracking one. */
  function Race(kind: Kind, mint: Pubkey, address: Pubkey, now: nat): seq<Access>
  {
    [Link(kind, mint, address), Unlink(kind, address), Unsubscribe(address), DropCurve(mint), DropBalance(mint),
     Forget(mint), Touch(mint, now), Subscribe(kind, address)]
  }

  /** It leaves an address that is subscribed but under no index. */
  lemma RaceLeavesOrphan(kind: Kind, mint: Pubkey, address: Pubkey, now: nat)
    ensures var i := PerformAll(EMPTY, Race(kind, mint, address, now));
      address in i.subscribed && !Linked(i, kind, address) && mint in i.touched
  {
    hide PerformAll, Linked;
    var trace := Race(kind, mint, address, now);
    LinkedIff(trace, kind, address);
    SubscribedIff(trace, address);
    TouchedIff(trace, mint);
    LeftLinkedOnce(trace, kind, mint, address, 0, 1);
    LeftSubscribedOnce(trace, kind, address, 7, 2);
    LeftTouchedOnce(trace, mint, 6, 5);
  }
}
