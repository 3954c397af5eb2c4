/** Whole runs of account tracking, and the stream that resubscribes when the number of accounts changes. */
module TrackingRuns {
  import opened Common
  import opened AccountTracking

  datatype Event =
    | TrackCurve(mint: Pubkey, address: Pubkey, now: nat)
    | TrackAta(mint: Pubkey, address: Pubkey, now: nat)
    | Untrack(mint: Pubkey)
    | Prune(active: set<Pubkey>, maxIdle: nat, now: nat)
    | Arrive(address: Pubkey, data: seq<byte>)
    | Tick(delivered: bool)

  /** The stream's request: the addresses last sent, and the count it remembers. */
  datatype Stream = Stream(listening: set<Pubkey>, counted: nat)

  datatype State = State(index: Index, stream: Stream)

  /** A tick compares counts only, and remembers the new count even if the request could not be sent. */
  function AfterTick(s: Stream, subscribed: set<Pubkey>, delivered: bool): Stream
  {
    if |subscribed| != s.counted then Stream(if delivered then subscribed else s.listening, |subscribed|) else s
  }

  class AccountStream {
    var listening: set<Pubkey>
    var lastSubscribedCount: nat

    ghost function View(): Stream
      reads this
    {
      Stream(listening, lastSubscribedCount)
    }

    constructor (accounts: set<Pubkey>)
      ensures View() == Stream(accounts, |accounts|)
    {
      listening, lastSubscribedCount := accounts, |accounts|;
    }

    method ResubscribeTick(subscriber: AccountSubscriber, delivered: bool)
      modifies this
      ensures View() == AfterTick(old(View()), subscriber.subscribedAccounts.Keys, delivered)
    {
      var current := subscriber.subscribedAccounts.Keys;
      if |current| != lastSubscribedCount {
        if delivered {
          listening := current;
        }
        lastSubscribedCount := |current|;
      }
    }
  }

  function Step(s: State, e: Event): State
  {
    match e
    case TrackCurve(mint, address, now) => s.(index := Track(s.index, CurveAccount, mint, address, now))
    case TrackAta(mint, address, now) => s.(index := Track(s.index, TokenAccount, mint, address, now))
    case Untrack(mint) => s.(index := Untracked(s.index, {mint}))
    case Prune(active, maxIdle, now) => s.(index := Untracked(s.index, Stale(s.index, active, maxIdle, now)))
    case Arrive(address, data) => s.(index := AfterUpdate(s.index, Received(s.index, address, data)))
    case Tick(delivered) => s.(stream := AfterTick(s.stream, s.index.subscribed.Keys, delivered))
  }

  function Run(s: State, events: seq<Event>): State
    decreases |events|
  {
    if events == [] then s else Run(Step(s, events[0]), events[1..])
  }

  lemma RunOne(s: State, e: Event)
    ensures Run(s, [e]) == Step(s, e)
  {
    hide Step;
    assert Run(s, [e]) == Run(Step(s, e), []);
  }

  lemma {:induction false} RunAppend(s: State, a: seq<Event>, b: seq<Event>)
    ensures Run(s, a + b) == Run(Run(s, a), b)
    decreases |a|
  {
    if a == [] {
      assert a + b == b;
    } else {
      assert (a + b)[1..] == a[1..] + b;
      RunAppend(Step(s, a[0]), a[1..], b);
    }
  }

  // ---- The indexes ----

  ghost predicate SubscribedIsUnion(i: Index)
  {
    i.subscribed.Keys == i.curves.Keys + i.atas.Keys
  }

  /** The mint an address belongs to. */
  function MintOf(i: Index, address: Pubkey): Pubkey
    requires address in i.curves || address in i.atas
  {
    if address in i.curves then i.curves[address] else i.atas[address]
  }

  ghost predicate Inv(i: Index)
  {
    && SubscribedIsUnion(i)
    && i.curves.Keys !! i.atas.Keys
    && (forall a | a in i.curves :: i.subscribed[a] == CurveAccount && i.curves[a] in i.touched)
    && (forall a | a in i.atas :: i.subscribed[a] == TokenAccount && i.atas[a] in i.touched)
    && i.balances.Keys <= i.touched.Keys
  }

  /** Curves are only tracked at addresses in one set and token accounts at addresses in another. */
  predicate Respects(e: Event, curves: set<Pubkey>, atas: set<Pubkey>)
  {
    && (e.TrackCurve? ==> e.address in curves)
    && (e.TrackAta? ==> e.address in atas)
  }

  lemma UntrackKeepsInv(i: Index, mints: set<Pubkey>)
    requires Inv(i)
    ensures Inv(Untracked(i, mints))
  {
  }

  lemma TrackKeepsInv(i: Index, kind: Kind, mint: Pubkey, address: Pubkey, now: nat)
    requires Inv(i) && match kind case CurveAccount => address !in i.atas case TokenAccount => address !in i.curves
    ensures Inv(Track(i, kind, mint, address, now))
  {
  }

  lemma UpdateKeepsInv(i: Index, address: Pubkey, data: seq<byte>)
    requires Inv(i)
    ensures Inv(AfterUpdate(i, Received(i, address, data)))
  {
  }

  lemma StepKeepsInv(s: State, e: Event, curves: set<Pubkey>, atas: set<Pubkey>)
    requires Inv(s.index) && curves !! atas && Respects(e, curves, atas)
    requires s.index.curves.Keys <= curves && s.index.atas.Keys <= atas
    ensures var i := Step(s, e).index; Inv(i) && i.curves.Keys <= curves && i.atas.Keys <= atas
  {
    hide Inv, AddressesOf, Stale, Received;
    match e
    case Untrack(mint) => UntrackKeepsInv(s.index, {mint});
    case Prune(active, maxIdle, now) => UntrackKeepsInv(s.index, Stale(s.index, active, maxIdle, now));
    case TrackCurve(mint, address, now) => TrackKeepsInv(s.index, CurveAccount, mint, address, now);
    case TrackAta(mint, address, now) => TrackKeepsInv(s.index, TokenAccount, mint, address, now);
    case Arrive(address, data) => UpdateKeepsInv(s.index, address, data);
    case Tick(_) =>
  }

  const EMPTY: Index := Index(map[], map[], map[], map[], map[], map[])

  lemma {:induction false} RunKeepsInv(s: State, events: seq<Event>, curves: set<Pubkey>, atas: set<Pubkey>)
    requires Inv(s.index) && curves !! atas && forall e | e in events :: Respects(e, curves, atas)
    requires s.index.curves.Keys <= curves && s.index.atas.Keys <= atas
    ensures Inv(Run(s, events).index)
    decreases |events|
  {
    if events != [] {
      StepKeepsInv(s, events[0], curves, atas);
      RunKeepsInv(Step(s, events[0]), events[1..], curves, atas);
    }
  }

  /**
   * In every run of calls one at a time the subscribed addresses are those of the two indexes, and every tracked
   * mint has a touch time.
   */
  lemma EveryRunKeepsInv(stream: Stream, events: seq<Event>, curves: set<Pubkey>, atas: set<Pubkey>)
    requires curves !! atas && forall e | e in events :: Respects(e, curves, atas)
    ensures Inv(Run(State(EMPTY, stream), events).index)
  {
    RunKeepsInv(State(EMPTY, stream), events, curves, atas);
  }

  /** Without that separation: untracking breaks the union exactly when an address is shared with another mint. */
  lemma UntrackKeepsUnionIff(i: Index, mint: Pubkey)
    requires SubscribedIsUnion(i)
    ensures SubscribedIsUnion(Untracked(i, {mint})) <==>
      forall a | a in i.curves && a in i.atas :: i.curves[a] == mint <==> i.atas[a] == mint
  {
    var j := Untracked(i, {mint});
    forall a | a in i.curves && a in i.atas
      ensures (a in j.subscribed <==> a in j.curves || a in j.atas) <==> (i.curves[a] == mint <==> i.atas[a] == mint)
    {
    }
    assert SubscribedIsUnion(j) <==> forall a | a in i.subscribed :: a in j.subscribed <==> a in j.curves || a in j.atas;
  }

  /** Pruning keeps exactly the addresses of mints that are active or recently touched, and what is known of those mints. */
  lemma PruneKeepsExactlyTheLive(i: Index, active: set<Pubkey>, maxIdle: nat, now: nat)
    requires Inv(i)
    ensures var j := Untracked(i, Stale(i, active, maxIdle, now));
      && (forall a :: a in j.subscribed <==> a in i.subscribed && Live(i, MintOf(i, a), active, maxIdle, now))
      && (forall a | a in j.subscribed :: MintOf(j, a) == MintOf(i, a) && j.subscribed[a] == i.subscribed[a])
      && (forall m :: m in j.touched <==> m in i.touched && Live(i, m, active, maxIdle, now))
      && (forall m :: m in j.balances <==> m in i.balances && Live(i, m, active, maxIdle, now))
      && (forall m :: m in j.curveCache <==> m in i.curveCache && (m in i.touched ==> Live(i, m, active, maxIdle, now)))
      && (forall m | m in j.balances :: j.balances[m] == i.balances[m])
      && (forall m | m in j.curveCache :: j.curveCache[m] == i.curveCache[m])
      && (forall m | m in j.touched :: j.touched[m] == i.touched[m])
  {
    hide Live;
  }

  /** Subscribed, but under no index. */
  predicate Orphan(i: Index, address: Pubkey)
  {
    address in i.subscribed && address !in i.curves && address !in i.atas
  }

  /** No prune, untracking, update or tick ever takes an orphan off the list, only tracking the same address again. */
  lemma {:induction false} OrphanStays(s: State, events: seq<Event>, address: Pubkey)
    requires Orphan(s.index, address)
    requires forall e | e in events && (e.TrackCurve? || e.TrackAta?) :: e.address != address
    ensures Orphan(Run(s, events).index, address)
    decreases |events|
  {
    if events != [] {
      assert events[0] in events;
      OrphanStays(Step(s, events[0]), events[1..], address);
    }
  }

  ghost predicate PrunesToLive(i: Index)
  {
    forall active, maxIdle, now, a | a in Untracked(i, Stale(i, active, maxIdle, now)).subscribed ::
      (a in i.curves || a in i.atas) && Live(i, MintOf(i, a), active, maxIdle, now)
  }

  /** Prunes leave only addresses of live mints exactly if none is an orphan and every mint with an address has a touch time. */
  lemma PruneIsCompleteIff(i: Index)
    requires i.curves.Keys !! i.atas.Keys
    ensures PrunesToLive(i) <==>
      forall a | a in i.subscribed :: (a in i.curves || a in i.atas) && MintOf(i, a) in i.touched
  {
    if forall a | a in i.subscribed :: (a in i.curves || a in i.atas) && MintOf(i, a) in i.touched {
      forall active, maxIdle, now, a | a in Untracked(i, Stale(i, active, maxIdle, now)).subscribed
        ensures (a in i.curves || a in i.atas) && Live(i, MintOf(i, a), active, maxIdle, now)
      {
        var stale := Stale(i, active, maxIdle, now);
        assert a in i.subscribed && a !in AddressesOf(i.curves, stale) && a !in AddressesOf(i.atas, stale);
      }
    } else {
      var a :| a in i.subscribed && !((a in i.curves || a in i.atas) && MintOf(i, a) in i.touched);
      assert a in Untracked(i, Stale(i, {}, 0, 0)).subscribed;
      assert !((a in i.curves || a in i.atas) && Live(i, MintOf(i, a), {}, 0, 0));
    }
  }

  /**
   * A prune decides first and untracks afterwards.  If one tracking call comes in between, the mint it untracks is
   * live by then exactly if that call was for the same mint and recent.
   */
  lemma StaleDecisionIff(i: Index, active: set<Pubkey>, maxIdle: nat, decided: nat, kind: Kind, mint: Pubkey, address: Pubkey,
                         at: nat, stale: Pubkey, untracked: nat)
    requires stale in Stale(i, active, maxIdle, decided) && decided <= untracked
    ensures Live(Track(i, kind, mint, address, at), stale, active, maxIdle, untracked) <==>
      mint == stale && Elapsed(untracked, at) < maxIdle
  {
  }

  /** An update moves the cached balance of the mint whose account it is, and of no other. */
  lemma UpdateReachesItsMintOnly(i: Index, address: Pubkey, data: seq<byte>)
    requires Inv(i)
    ensures var j := AfterUpdate(i, Received(i, address, data));
      && (address in i.atas ==> j.balances == i.balances[i.atas[address] := BalanceIn(data)] && j.curveCache == i.curveCache)
      && (address in i.curves ==> j.balances == i.balances && j.curveCache - {i.curves[address]} == i.curveCache - {i.curves[address]})
      && (address !in i.subscribed ==> j == i)
  {
  }

  // ---- The stream ----

  lemma DifferenceSizes(a: set<Pubkey>, b: set<Pubkey>)
    ensures |a| == |b| <==> |a - b| == |b - a|
  {
    assert a == (a - b) + (a * b);
    assert b == (b - a) + (a * b);
  }

  /** As long as every request is delivered, a tick misses a change exactly when as many addresses came as went. */
  lemma ChangeMissedIff(s: Stream, subscribed: set<Pubkey>)
    requires s.counted == |s.listening|
    ensures AfterTick(s, subscribed, true).listening != subscribed <==>
      |subscribed - s.listening| == |s.listening - subscribed| > 0
  {
    DifferenceSizes(subscribed, s.listening);
    if subscribed - s.listening == {} && s.listening - subscribed == {} {
      assert subscribed == s.listening;
    }
  }

  /** Swapping the only account of one mint for an account of another goes unnoticed by every later tick. */
  lemma SwapGoesUnnoticed(s: State, mint: Pubkey, address: Pubkey, other: Pubkey, added: Pubkey, now: nat)
    requires SubscribedIsUnion(s.index) && s.stream == Stream(s.index.subscribed.Keys, |s.index.subscribed.Keys|)
    requires AddressesOf(s.index.curves, {mint}) + AddressesOf(s.index.atas, {mint}) == {address}
    requires added !in s.index.subscribed
    ensures var t := Run(s, [Untrack(mint), TrackAta(other, added, now), Tick(true)]);
      && added in t.index.subscribed && added !in t.stream.listening
      && Step(t, Tick(true)) == t
  {
    hide *;
    RunAppend(s, [Untrack(mint)] + [TrackAta(other, added, now)], [Tick(true)]);
    RunAppend(s, [Untrack(mint)], [TrackAta(other, added, now)]);
    RunOne(s, Untrack(mint));
    RunOne(Step(s, Untrack(mint)), TrackAta(other, added, now));
    RunOne(Step(Step(s, Untrack(mint)), TrackAta(other, added, now)), Tick(true));
    assert [Untrack(mint)] + [TrackAta(other, added, now)] + [Tick(true)] == [Untrack(mint), TrackAta(other, added, now), Tick(true)];
    SwapLeavesStream(s, mint, address, other, added, now);
  }

  lemma SwapLeavesStream(s: State, mint: Pubkey, address: Pubkey, other: Pubkey, added: Pubkey, now: nat)
    requires SubscribedIsUnion(s.index) && s.stream == Stream(s.index.subscribed.Keys, |s.index.subscribed.Keys|)
    requires AddressesOf(s.index.curves, {mint}) + AddressesOf(s.index.atas, {mint}) == {address}
    requires added !in s.index.subscribed
    ensures var t := Step(Step(Step(s, Untrack(mint)), TrackAta(other, added, now)), Tick(true));
      && added in t.index.subscribed && added !in t.stream.listening
      && Step(t, Tick(true)) == t
  {
    hide Untracked, AddressesOf, SubscribedIsUnion;
    SwapKeepsCount(s.index, mint, address, other, added, now);
  }

  lemma SwapKeepsCount(i: Index, mint: Pubkey, address: Pubkey, other: Pubkey, added: Pubkey, now: nat)
    requires SubscribedIsUnion(i) && added !in i.subscribed
    requires AddressesOf(i.curves, {mint}) + AddressesOf(i.atas, {mint}) == {address}
    ensures var after := Track(Untracked(i, {mint}), TokenAccount, other, added, now).subscribed.Keys;
      after == i.subscribed.Keys - {address} + {added} && |after| == |i.subscribed.Keys|
  {
    assert address in i.subscribed by {
      assert address in AddressesOf(i.curves, {mint}) + AddressesOf(i.atas, {mint});
    }
    var left := Untracked(i, {mint}).subscribed.Keys;
    assert left == i.subscribed.Keys - {address};
    assert Track(Untracked(i, {mint}), TokenAccount, other, added, now).subscribed.Keys == left + {added};
  }

  predicate TrackOnly(e: Event)
  {
    e.TrackCurve? || e.TrackAta? || e.Arrive? || (e.Tick? && e.delivered)
  }

  ghost predicate Behind(s: State)
  {
    s.stream.listening <= s.index.subscribed.Keys && s.stream.counted == |s.stream.listening|
  }

  lemma SubsetOfEqualSize(a: set<Pubkey>, b: set<Pubkey>)
    requires a <= b && |a| == |b|
    ensures a == b
  {
    assert b == a + (b - a);
  }

  lemma {:induction false} TrackOnlyStaysBehind(s: State, events: seq<Event>)
    requires Behind(s) && forall e | e in events :: TrackOnly(e)
    ensures Behind(Run(s, events))
    decreases |events|
  {
    if events != [] {
      assert TrackOnly(events[0]);
      TrackOnlyStaysBehind(Step(s, events[0]), events[1..]);
    }
  }

  /** While accounts are only added, equal counts mean equal sets, so every tick brings the stream up to date. */
  lemma TrackOnlyTicksSync(s: State, events: seq<Event>)
    requires Behind(s) && forall e | e in events :: TrackOnly(e)
    ensures var t := Run(s, events);
      && (t.stream.counted == |t.index.subscribed.Keys| ==> t.stream.listening == t.index.subscribed.Keys)
      && Step(t, Tick(true)).stream.listening == t.index.subscribed.Keys
  {
    TrackOnlyStaysBehind(s, events);
    var t := Run(s, events);
    if t.stream.counted == |t.index.subscribed.Keys| {
      SubsetOfEqualSize(t.stream.listening, t.index.subscribed.Keys);
    }
  }

  /** A request that could not be sent is not sent again until the number of accounts changes. */
  lemma LostRequestIsNotRetried(s: State, events: seq<Event>)
    requires |s.index.subscribed.Keys| != s.stream.counted
    requires forall e | e in events :: e.Tick? || e.Arrive?
    ensures var t := Run(Step(s, Tick(false)), events);
      t.stream.listening == s.stream.listening && t.index.subscribed == s.index.subscribed
  {
    QuietRun(Step(s, Tick(false)), events);
  }

  lemma {:induction false} QuietRun(s: State, events: seq<Event>)
    requires |s.index.subscribed.Keys| == s.stream.counted && forall e | e in events :: e.Tick? || e.Arrive?
    ensures Run(s, events).stream == s.stream && Run(s, events).index.subscribed == s.index.subscribed
    decreases |events|
  {
    if events != [] {
      assert events[0].Tick? || events[0].Arrive?;
      QuietRun(Step(s, events[0]), events[1..]);
    }
  }
}
