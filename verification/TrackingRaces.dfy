/** Tracking and untracking calls of several tasks under way at once, one access at a time. */
module TrackingRaces {
  import opened Common
  import opened AccountTracking
  import opened TrackingAccesses
  import TrackingRuns

  /** A call under way, by what it has left to do; an untracking call works off the addresses that its scan found. */
  datatype Call =
    | Tracking(kind: Kind, mint: Pubkey, address: Pubkey, now: nat, touched: bool)
    | Untracking(kind: Kind, mint: Pubkey, found: set<Pubkey>, half: Option<Pubkey>)
    | Forgetting(mint: Pubkey, balanceDropped: bool)

  datatype World = World(index: Index, calls: map<nat, Call>)

  datatype Event =
    | BeginTrack(who: nat, kind: Kind, mint: Pubkey, address: Pubkey, now: nat)
    | BeginUntrack(who: nat, mint: Pubkey)
    | Advance(who: nat, next: Pubkey)
    | Arrive(address: Pubkey, data: seq<byte>)

  function Do(w: World, x: Access, who: nat, call: Call): World
  {
    World(Perform(w.index, x), w.calls[who := call])
  }

  function Finish(w: World, x: Access, who: nat): World
  {
    World(Perform(w.index, x), w.calls - {who})
  }

  function Found(i: Index, kind: Kind, mint: Pubkey): set<Pubkey>
  {
    match kind
    case CurveAccount => AddressesOf(i.curves, {mint})
    case TokenAccount => AddressesOf(i.atas, {mint})
  }

  /** The next access of a call; `next` says which of the found addresses is taken up. */
  function AfterAdvance(w: World, who: nat, next: Pubkey): World
    requires who in w.calls
  {
    match w.calls[who]
    case Tracking(kind, mint, address, now, false) => Do(w, Touch(mint, now), who, Tracking(kind, mint, address, now, true))
    case Tracking(kind, mint, address, _, true) => Finish(w, Subscribe(kind, address), who)
    case Untracking(kind, mint, found, Some(address)) => Do(w, Unsubscribe(address), who, Untracking(kind, mint, found, None))
    case Untracking(kind, mint, found, None) =>
      if next in found then Do(w, Unlink(kind, next), who, Untracking(kind, mint, found - {next}, Some(next)))
      else if found != {} then w
      else if kind.CurveAccount? then
        w.(calls := w.calls[who := Untracking(TokenAccount, mint, Found(w.index, TokenAccount, mint), None)])
      else Do(w, DropCurve(mint), who, Forgetting(mint, false))
    case Forgetting(mint, false) => Do(w, DropBalance(mint), who, Forgetting(mint, true))
    case Forgetting(mint, true) => Finish(w, Forget(mint), who)
  }

  function Step(w: World, e: Event): World
  {
    match e
    case BeginTrack(who, kind, mint, address, now) =>
      if who in w.calls then w else Do(w, Link(kind, mint, address), who, Tracking(kind, mint, address, now, false))
    case BeginUntrack(who, mint) =>
      if who in w.calls then w
      else w.(calls := w.calls[who := Untracking(CurveAccount, mint, Found(w.index, CurveAccount, mint), None)])
    case Advance(who, next) => if who in w.calls then AfterAdvance(w, who, next) else w
    case Arrive(address, data) => w.(index := AfterUpdate(w.index, Received(w.index, address, data)))
  }

  function Run(w: World, events: seq<Event>): World
    decreases |events|
  {
    if events == [] then w else Run(Step(w, events[0]), events[1..])
  }

  predicate Removes(c: Call, mint: Pubkey)
  {
    !c.Tracking? && c.mint == mint
  }

  /** A tracking and an untracking call of the same mint get under way at once. */
  ghost predicate Crosses(w: World, e: Event)
  {
    || (e.BeginTrack? && exists y :: y in w.calls && Removes(w.calls[y], e.mint))
    || (e.BeginUntrack? && exists y :: y in w.calls && w.calls[y].Tracking? && w.calls[y].mint == e.mint)
  }

  predicate AtHome(e: Event, homes: Homes)
  {
    e.BeginTrack? ==> e.address in homes && homes[e.address] == (e.kind, e.mint)
  }

  // ---- The invariant ----

  /** A call is about addresses of its own mint: a tracking one has linked its own, a removing one has found all that are linked. */
  predicate Fits(i: Index, c: Call, homes: Homes)
  {
    match c
    case Tracking(kind, mint, address, _, _) => address in homes && homes[address] == (kind, mint) && Linked(i, kind, address)
    case Untracking(kind, mint, found, half) =>
      && (forall a | a in found :: a in homes && homes[a] == (kind, mint))
      && (half.Some? ==> half.value in homes && homes[half.value] == (kind, mint) && !Linked(i, kind, half.value))
      && Found(i, kind, mint) <= found
      && (kind.TokenAccount? ==> Found(i, CurveAccount, mint) == {})
    case Forgetting(mint, balanceDropped) =>
      && Found(i, CurveAccount, mint) == {} && Found(i, TokenAccount, mint) == {}
      && (balanceDropped ==> mint !in i.balances)
  }

  ghost predicate AllFit(w: World, homes: Homes)
  {
    forall x | x in w.calls :: Fits(w.index, w.calls[x], homes)
  }

  /** No mint is being tracked and untracked at once. */
  ghost predicate NoneCross(calls: map<nat, Call>)
  {
    forall x, y | x in calls && y in calls && calls[x].Tracking? && !calls[y].Tracking? :: calls[x].mint != calls[y].mint
  }

  predicate MapAtHome(index: map<Pubkey, Pubkey>, kind: Kind, homes: Homes)
  {
    forall a | a in index :: a in homes && homes[a] == (kind, index[a])
  }

  predicate IndexAtHome(i: Index, homes: Homes)
  {
    && MapAtHome(i.curves, CurveAccount, homes) && MapAtHome(i.atas, TokenAccount, homes)
    && (forall a | a in i.subscribed :: a in homes && homes[a].0 == i.subscribed[a])
  }

  /** Some call has taken the address out of its index and will unsubscribe it next. */
  ghost predicate HasHalf(calls: map<nat, Call>, address: Pubkey)
  {
    exists y :: y in calls && HalfUndone(calls[y], address)
  }

  ghost predicate WillSubscribe(calls: map<nat, Call>, address: Pubkey)
  {
    exists y :: y in calls && ToSubscribe(calls[y], address)
  }

  ghost predicate WillTouch(calls: map<nat, Call>, mint: Pubkey)
  {
    exists y :: y in calls && ToTouch(calls[y], mint)
  }

  predicate HalfUndone(c: Call, address: Pubkey)
  {
    c.Untracking? && c.half == Some(address)
  }

  predicate ToSubscribe(c: Call, address: Pubkey)
  {
    c.Tracking? && c.address == address
  }

  predicate ToTouch(c: Call, mint: Pubkey)
  {
    c.Tracking? && c.mint == mint && !c.touched
  }

  /** Where the address is not sound, a call under way is about to set it right. */
  ghost predicate AccountedFor(i: Index, calls: map<nat, Call>, homes: Homes, a: Pubkey)
    requires a in homes
  {
    var linked := Linked(i, homes[a].0, a);
    && (a in i.subscribed && !linked ==> HasHalf(calls, a))
    && (linked && a !in i.subscribed ==> WillSubscribe(calls, a))
    && (linked && homes[a].1 !in i.touched ==> WillTouch(calls, homes[a].1))
  }

  ghost predicate AllAccountedFor(w: World, homes: Homes)
  {
    forall a | a in homes :: AccountedFor(w.index, w.calls, homes, a)
  }

  ghost predicate BalanceAccountedFor(i: Index, calls: map<nat, Call>, mint: Pubkey)
  {
    mint in i.balances ==> mint in i.touched || WillTouch(calls, mint)
  }

  ghost predicate BalancesAccountedFor(w: World)
  {
    forall m | m in w.index.balances :: BalanceAccountedFor(w.index, w.calls, m)
  }

  ghost predicate Inv(w: World, homes: Homes)
  {
    IndexAtHome(w.index, homes) && AllFit(w, homes) && NoneCross(w.calls) && AllAccountedFor(w, homes) && BalancesAccountedFor(w)
  }

  /** With no call under way every address is sound, and the indexes are as undisturbed calls keep them. */
  lemma QuietIsSound(w: World, homes: Homes)
    requires Inv(w, homes) && w.calls == map[]
    ensures forall a | a in homes :: SoundAt(w.index, homes, a)
    ensures TrackingRuns.Inv(w.index)
  {
    forall a | a in homes ensures SoundAt(w.index, homes, a) {
      assert AccountedFor(w.index, w.calls, homes, a);
    }
    assert forall a | a in w.index.subscribed :: SoundAt(w.index, homes, a);
    assert forall a | a in w.index.curves.Keys + w.index.atas.Keys :: SoundAt(w.index, homes, a);
    assert forall m | m in w.index.balances :: BalanceAccountedFor(w.index, w.calls, m);
  }

  // ---- One access ----

  predicate AccessAtHome(x: Access, homes: Homes)
  {
    match x
    case Link(kind, mint, address) => address in homes && homes[address] == (kind, mint)
    case Subscribe(kind, address) => address in homes && homes[address].0 == kind
    case _ => true
  }

  lemma MapHomeAfter(index: map<Pubkey, Pubkey>, kind: Kind, homes: Homes, address: Pubkey, mint: Pubkey)
    requires MapAtHome(index, kind, homes)
    ensures address in homes && homes[address] == (kind, mint) ==> MapAtHome(index[address := mint], kind, homes)
    ensures MapAtHome(index - {address}, kind, homes)
  {
  }

  lemma HomeAfter(i: Index, x: Access, homes: Homes)
    requires IndexAtHome(i, homes) && AccessAtHome(x, homes)
    ensures IndexAtHome(Perform(i, x), homes)
  {
    hide MapAtHome;
    match x
    case Link(kind, mint, address) =>
      MapHomeAfter(if kind.CurveAccount? then i.curves else i.atas, kind, homes, address, mint);
    case Unlink(kind, address) =>
      MapHomeAfter(if kind.CurveAccount? then i.curves else i.atas, kind, homes, address, "");
    case _ =>
  }

  /** Only a link makes a scan find more, and only its own mint's. */
  lemma FoundAfter(i: Index, x: Access, kind: Kind, mint: Pubkey)
    requires x.Link? ==> x.mint != mint
    ensures Found(Perform(i, x), kind, mint) <= Found(i, kind, mint)
  {
  }

  lemma BalancesAfter(i: Index, x: Access, mint: Pubkey)
    ensures mint in Perform(i, x).balances <==> mint in i.balances && x != DropBalance(mint)
  {
  }

  /** Nothing but a link of the same mint disturbs a removing call, or an unlink of the same address a tracking one. */
  lemma FitsAfter(i: Index, x: Access, c: Call, homes: Homes)
    requires Fits(i, c, homes) && AccessAtHome(x, homes)
    requires x.Link? ==> c.Tracking? || c.mint != x.mint
    requires x.Unlink? && c.Tracking? ==> c.address != x.address
    ensures Fits(Perform(i, x), c, homes)
  {
    hide Perform, Found, Linked;
    match c
    case Tracking(kind, _, address, _, _) => LinkedAfter(i, x, kind, address);
    case Untracking(kind, mint, found, half) =>
      FoundAfter(i, x, kind, mint);
      FoundAfter(i, x, CurveAccount, mint);
      if half.Some? {
        LinkedAfter(i, x, kind, half.value);
      }
    case Forgetting(mint, _) =>
      FoundAfter(i, x, CurveAccount, mint);
      FoundAfter(i, x, TokenAccount, mint);
      BalancesAfter(i, x, mint);
  }

  lemma KeepsOthers(calls: map<nat, Call>, who: nat, c: Call, a: Pubkey)
    ensures HasHalf(calls, a) && (who in calls ==> !HalfUndone(calls[who], a)) ==> HasHalf(calls[who := c], a) && HasHalf(calls - {who}, a)
    ensures WillSubscribe(calls, a) && (who in calls ==> !ToSubscribe(calls[who], a)) ==>
      WillSubscribe(calls[who := c], a) && WillSubscribe(calls - {who}, a)
    ensures WillTouch(calls, a) && (who in calls ==> !ToTouch(calls[who], a)) ==> WillTouch(calls[who := c], a) && WillTouch(calls - {who}, a)
    ensures HalfUndone(c, a) ==> HasHalf(calls[who := c], a)
    ensures ToSubscribe(c, a) ==> WillSubscribe(calls[who := c], a)
    ensures ToTouch(c, a) ==> WillTouch(calls[who := c], a)
  {
    if HasHalf(calls, a) && (who in calls ==> !HalfUndone(calls[who], a)) {
      var y :| y in calls && HalfUndone(calls[y], a);
      assert y in calls[who := c] && y in calls - {who};
    }
    if WillSubscribe(calls, a) && (who in calls ==> !ToSubscribe(calls[who], a)) {
      var y :| y in calls && ToSubscribe(calls[y], a);
      assert y in calls[who := c] && y in calls - {who};
    }
    if WillTouch(calls, a) && (who in calls ==> !ToTouch(calls[who], a)) {
      var y :| y in calls && ToTouch(calls[y], a);
      assert y in calls[who := c] && y in calls - {who};
    }
    assert who in calls[who := c];
  }

  /** What an access and the new stages of the calls mean for one address. */
  lemma AddressAfter(i: Index, calls: map<nat, Call>, after: map<nat, Call>, homes: Homes, x: Access, a: Pubkey)
    requires a in homes && AccountedFor(i, calls, homes, a)
    requires var (kind, mint) := homes[a];
      && (HasHalf(calls, a) ==> HasHalf(after, a) || x == Unsubscribe(a))
      && (WillSubscribe(calls, a) ==> WillSubscribe(after, a) || (x.Subscribe? && x.address == a))
      && (WillTouch(calls, mint) ==> WillTouch(after, mint) || (x.Touch? && x.mint == mint))
      && (Links(x, kind, a) ==> WillSubscribe(after, a) && WillTouch(after, mint))
      && (x == Unlink(kind, a) ==> HasHalf(after, a))
      && (x.Subscribe? && x.address == a ==> Linked(i, kind, a))
      && (x == Unsubscribe(a) || x == Forget(mint) ==> !Linked(i, kind, a))
    ensures AccountedFor(Perform(i, x), after, homes, a)
  {
    hide Perform, HasHalf, WillSubscribe, WillTouch, Linked;
    LinkedAfter(i, x, homes[a].0, a);
    SubscribedAfter(i, x, a);
    TouchedAfter(i, x, homes[a].1);
  }

  lemma BalanceAfter(i: Index, calls: map<nat, Call>, after: map<nat, Call>, x: Access, mint: Pubkey)
    requires BalanceAccountedFor(i, calls, mint)
    requires WillTouch(calls, mint) ==> WillTouch(after, mint) || (x.Touch? && x.mint == mint)
    requires x == Forget(mint) ==> mint !in i.balances
    ensures BalanceAccountedFor(Perform(i, x), after, mint)
  {
    hide Perform, WillTouch;
    TouchedAfter(i, x, mint);
    BalancesAfter(i, x, mint);
  }

  // ---- One step ----

  /** The stages of all calls and the index after one access of call `who`. */
  lemma AccessKeepsInv(w: World, after: map<nat, Call>, homes: Homes, x: Access, who: nat)
    requires Inv(w, homes) && AccessAtHome(x, homes)
    requires forall y | y in after && y != who :: y in w.calls && after[y] == w.calls[y]
    requires forall y | y in w.calls && y != who :: y in after
    requires who in after ==> Fits(Perform(w.index, x), after[who], homes)
    requires x.Link? ==> forall y | y in after && y != who :: after[y].Tracking? || after[y].mint != x.mint
    requires x.Unlink? ==> forall y | y in after && y != who && after[y].Tracking? :: after[y].address != x.address
    requires NoneCross(after)
    requires forall a | a in homes :: AccountedFor(Perform(w.index, x), after, homes, a)
    requires forall m :: WillTouch(w.calls, m) ==> WillTouch(after, m) || (x.Touch? && x.mint == m)
    requires x.Forget? ==> x.mint !in w.index.balances
    ensures Inv(World(Perform(w.index, x), after), homes)
  {
    hide Perform, Fits, AccountedFor, IndexAtHome, AccessAtHome, WillTouch, BalanceAccountedFor;
    HomeAfter(w.index, x, homes);
    forall m ensures BalanceAccountedFor(Perform(w.index, x), after, m) {
      if m !in w.index.balances {
        NoBalance(w.index, w.calls, m);
      }
      BalanceAfter(w.index, w.calls, after, x, m);
    }
    forall y | y in after ensures Fits(Perform(w.index, x), after[y], homes) {
      if y != who {
        FitsAfter(w.index, x, after[y], homes);
      }
    }
  }

  lemma NoBalance(i: Index, calls: map<nat, Call>, mint: Pubkey)
    requires mint !in i.balances
    ensures BalanceAccountedFor(i, calls, mint)
  {
  }

  lemma BeginTrackKeepsInv(w: World, e: Event, homes: Homes)
    requires Inv(w, homes) && e.BeginTrack? && AtHome(e, homes) && !Crosses(w, e) && e.who !in w.calls
    ensures Inv(Step(w, e), homes)
  {
    hide Perform, IndexAtHome;
    var x, c := Link(e.kind, e.mint, e.address), Tracking(e.kind, e.mint, e.address, e.now, false);
    var after := w.calls[e.who := c];
    LinkedAfter(w.index, x, e.kind, e.address);
    forall y | y in w.calls && !w.calls[y].Tracking? ensures w.calls[y].mint != e.mint {
      assert !Removes(w.calls[y], e.mint);
    }
    forall a | a in homes ensures AccountedFor(Perform(w.index, x), after, homes, a) {
      KeepsOthers(w.calls, e.who, c, a);
      KeepsOthers(w.calls, e.who, c, homes[a].1);
      AddressAfter(w.index, w.calls, after, homes, x, a);
    }
    forall m ensures WillTouch(w.calls, m) ==> WillTouch(after, m) || (x.Touch? && x.mint == m) {
      KeepsOthers(w.calls, e.who, c, m);
    }
    AccessKeepsInv(w, after, homes, x, e.who);
  }

  /** Calls change their stages but not the index. */
  lemma StagesKeepInv(w: World, who: nat, c: Call, homes: Homes)
    requires Inv(w, homes) && Fits(w.index, c, homes) && !c.Tracking? && NoneCross(w.calls[who := c])
    requires who in w.calls ==> w.calls[who].Untracking? && w.calls[who].half.None?
    ensures Inv(w.(calls := w.calls[who := c]), homes)
  {
    hide Fits, IndexAtHome;
    forall a | a in homes ensures AccountedFor(w.index, w.calls[who := c], homes, a) {
      assert AccountedFor(w.index, w.calls, homes, a);
      KeepsOthers(w.calls, who, c, a);
      KeepsOthers(w.calls, who, c, homes[a].1);
    }
    forall m | m in w.index.balances ensures BalanceAccountedFor(w.index, w.calls[who := c], m) {
      KeepsOthers(w.calls, who, c, m);
    }
  }

  lemma ScanFits(i: Index, kind: Kind, mint: Pubkey, homes: Homes)
    requires IndexAtHome(i, homes) && (kind.TokenAccount? ==> Found(i, CurveAccount, mint) == {})
    ensures Fits(i, Untracking(kind, mint, Found(i, kind, mint), None), homes)
  {
  }

  lemma BeginUntrackKeepsInv(w: World, e: Event, homes: Homes)
    requires Inv(w, homes) && e.BeginUntrack? && !Crosses(w, e) && e.who !in w.calls
    ensures Inv(Step(w, e), homes)
  {
    hide Fits;
    ScanFits(w.index, CurveAccount, e.mint, homes);
    StagesKeepInv(w, e.who, Untracking(CurveAccount, e.mint, Found(w.index, CurveAccount, e.mint), None), homes);
  }

  lemma TrackingAdvances(w: World, who: nat, next: Pubkey, homes: Homes)
    requires Inv(w, homes) && who in w.calls && w.calls[who].Tracking?
    ensures Inv(AfterAdvance(w, who, next), homes)
  {
    hide Perform, IndexAtHome;
    var c := w.calls[who];
    var x := if c.touched then Subscribe(c.kind, c.address) else Touch(c.mint, c.now);
    var c' := c.(touched := true);
    var after := if c.touched then w.calls - {who} else w.calls[who := c'];
    FitsAfter(w.index, x, c, homes);
    forall a | a in homes ensures AccountedFor(Perform(w.index, x), after, homes, a) {
      KeepsOthers(w.calls, who, c', a);
      KeepsOthers(w.calls, who, c', homes[a].1);
      AddressAfter(w.index, w.calls, after, homes, x, a);
    }
    forall m ensures WillTouch(w.calls, m) ==> WillTouch(after, m) || (x.Touch? && x.mint == m) {
      KeepsOthers(w.calls, who, c', m);
    }
    AccessKeepsInv(w, after, homes, x, who);
  }

  lemma UnsubscribeKeepsInv(w: World, who: nat, next: Pubkey, homes: Homes)
    requires Inv(w, homes) && who in w.calls && w.calls[who].Untracking? && w.calls[who].half.Some?
    ensures Inv(AfterAdvance(w, who, next), homes)
  {
    hide Perform, IndexAtHome, Found, Linked;
    var c := w.calls[who];
    var x, c' := Unsubscribe(c.half.value), c.(half := None);
    var after := w.calls[who := c'];
    FitsAfter(w.index, x, c, homes);
    forall a | a in homes ensures AccountedFor(Perform(w.index, x), after, homes, a) {
      KeepsOthers(w.calls, who, c', a);
      KeepsOthers(w.calls, who, c', homes[a].1);
      AddressAfter(w.index, w.calls, after, homes, x, a);
    }
    forall m ensures WillTouch(w.calls, m) ==> WillTouch(after, m) || (x.Touch? && x.mint == m) {
      KeepsOthers(w.calls, who, c', m);
    }
    AccessKeepsInv(w, after, homes, x, who);
  }

  lemma UnlinkedFits(i: Index, c: Call, next: Pubkey, homes: Homes)
    requires c.Untracking? && next in c.found && Fits(i, c, homes)
    ensures Fits(Perform(i, Unlink(c.kind, next)), c.(found := c.found - {next}, half := Some(next)), homes)
  {
  }

  lemma UnlinkKeepsInv(w: World, who: nat, next: Pubkey, homes: Homes)
    requires Inv(w, homes) && who in w.calls && w.calls[who].Untracking? && w.calls[who].half.None? && next in w.calls[who].found
    ensures Inv(AfterAdvance(w, who, next), homes)
  {
    hide Perform, IndexAtHome, Found, Linked;
    var c := w.calls[who];
    var x, c' := Unlink(c.kind, next), c.(found := c.found - {next}, half := Some(next));
    var after := w.calls[who := c'];
    UnlinkedFits(w.index, c, next, homes);
    assert homes[next] == (c.kind, c.mint);
    forall y | y in after && y != who && after[y].Tracking? ensures after[y].address != next {
      assert Fits(w.index, w.calls[y], homes);
      assert w.calls[y].mint != c.mint;
    }
    forall a | a in homes ensures AccountedFor(Perform(w.index, x), after, homes, a) {
      KeepsOthers(w.calls, who, c', a);
      KeepsOthers(w.calls, who, c', homes[a].1);
      AddressAfter(w.index, w.calls, after, homes, x, a);
    }
    forall m ensures WillTouch(w.calls, m) ==> WillTouch(after, m) || (x.Touch? && x.mint == m) {
      KeepsOthers(w.calls, who, c', m);
    }
    AccessKeepsInv(w, after, homes, x, who);
  }

  /** All that a scan of the mint would find is gone, so nothing of it is linked. */
  lemma NothingLinked(i: Index, homes: Homes, a: Pubkey)
    requires IndexAtHome(i, homes) && a in homes
    ensures Found(i, CurveAccount, homes[a].1) == {} && Found(i, TokenAccount, homes[a].1) == {} ==> !Linked(i, homes[a].0, a)
  {
    match homes[a].0
    case CurveAccount =>
      assert a in i.curves ==> a in Found(i, CurveAccount, homes[a].1);
    case TokenAccount =>
      assert a in i.atas ==> a in Found(i, TokenAccount, homes[a].1);
  }

  lemma ForgettingAdvances(w: World, who: nat, next: Pubkey, homes: Homes)
    requires Inv(w, homes) && who in w.calls && w.calls[who].Forgetting?
    ensures Inv(AfterAdvance(w, who, next), homes)
  {
    hide Perform, IndexAtHome, Found, Linked;
    var c := w.calls[who];
    var x := if c.balanceDropped then Forget(c.mint) else DropBalance(c.mint);
    var c' := c.(balanceDropped := true);
    var after := if c.balanceDropped then w.calls - {who} else w.calls[who := c'];
    FitsAfter(w.index, x, c, homes);
    BalancesAfter(w.index, x, c.mint);
    forall a | a in homes ensures AccountedFor(Perform(w.index, x), after, homes, a) {
      KeepsOthers(w.calls, who, c', a);
      KeepsOthers(w.calls, who, c', homes[a].1);
      NothingLinked(w.index, homes, a);
      AddressAfter(w.index, w.calls, after, homes, x, a);
    }
    forall m ensures WillTouch(w.calls, m) ==> WillTouch(after, m) || (x.Touch? && x.mint == m) {
      KeepsOthers(w.calls, who, c', m);
    }
    AccessKeepsInv(w, after, homes, x, who);
  }

  lemma DropCurveKeepsInv(w: World, who: nat, next: Pubkey, homes: Homes)
    requires Inv(w, homes) && who in w.calls
    requires var c := w.calls[who]; c.Untracking? && c.half.None? && c.found == {} && c.kind.TokenAccount?
    ensures Inv(AfterAdvance(w, who, next), homes)
  {
    hide Perform, IndexAtHome, Found, Linked;
    var c := w.calls[who];
    var x, c' := DropCurve(c.mint), Forgetting(c.mint, false);
    var after := w.calls[who := c'];
    assert Found(w.index, CurveAccount, c.mint) == {} && Found(w.index, TokenAccount, c.mint) == {};
    FitsAfter(w.index, x, c', homes);
    forall a | a in homes ensures AccountedFor(Perform(w.index, x), after, homes, a) {
      KeepsOthers(w.calls, who, c', a);
      KeepsOthers(w.calls, who, c', homes[a].1);
      AddressAfter(w.index, w.calls, after, homes, x, a);
    }
    forall m ensures WillTouch(w.calls, m) ==> WillTouch(after, m) || (x.Touch? && x.mint == m) {
      KeepsOthers(w.calls, who, c', m);
    }
    AccessKeepsInv(w, after, homes, x, who);
  }

  lemma UntrackingAdvances(w: World, who: nat, next: Pubkey, homes: Homes)
    requires Inv(w, homes) && who in w.calls && w.calls[who].Untracking?
    ensures Inv(AfterAdvance(w, who, next), homes)
  {
    hide Perform, IndexAtHome, Found;
    var c := w.calls[who];
    if c.half.Some? {
      UnsubscribeKeepsInv(w, who, next, homes);
    } else if next in c.found {
      UnlinkKeepsInv(w, who, next, homes);
    } else if c.found == {} && c.kind.CurveAccount? {
      ScanFits(w.index, TokenAccount, c.mint, homes);
      StagesKeepInv(w, who, Untracking(TokenAccount, c.mint, Found(w.index, TokenAccount, c.mint), None), homes);
    } else if c.found == {} {
      DropCurveKeepsInv(w, who, next, homes);
    }
  }

  lemma ArriveKeepsInv(w: World, e: Event, homes: Homes)
    requires Inv(w, homes) && e.Arrive?
    ensures Inv(Step(w, e), homes)
  {
    var v := Step(w, e);
    forall x | x in v.calls ensures Fits(v.index, v.calls[x], homes) {
      assert Fits(w.index, w.calls[x], homes);
      if v.calls[x].Forgetting? && e.address in w.index.atas && w.index.atas[e.address] == v.calls[x].mint {
        assert e.address in Found(w.index, TokenAccount, v.calls[x].mint);
      }
    }
    forall a | a in homes ensures AccountedFor(v.index, v.calls, homes, a) {
      assert AccountedFor(w.index, w.calls, homes, a);
    }
    forall m | m in v.index.balances ensures BalanceAccountedFor(v.index, v.calls, m) {
      if m in w.index.balances {
        assert BalanceAccountedFor(w.index, w.calls, m);
      } else {
        assert AccountedFor(w.index, w.calls, homes, e.address);
      }
    }
  }

  lemma StepKeepsInv(w: World, e: Event, homes: Homes)
    requires Inv(w, homes) && AtHome(e, homes) && !Crosses(w, e)
    ensures Inv(Step(w, e), homes)
  {
    hide Inv, Crosses, Perform, Found;
    match e
    case BeginTrack(who, _, _, _, _) =>
      if who !in w.calls {
        BeginTrackKeepsInv(w, e, homes);
      }
    case BeginUntrack(who, _) =>
      if who !in w.calls {
        BeginUntrackKeepsInv(w, e, homes);
      }
    case Advance(who, next) =>
      if who in w.calls {
        match w.calls[who]
        case Tracking(_, _, _, _, _) => TrackingAdvances(w, who, next, homes);
        case Untracking(_, _, _, _) => UntrackingAdvances(w, who, next, homes);
        case Forgetting(_, _) => ForgettingAdvances(w, who, next, homes);
      }
    case Arrive(_, _) => ArriveKeepsInv(w, e, homes);
  }

  ghost predicate NeverCrosses(w: World, events: seq<Event>)
    decreases |events|
  {
    events == [] || (!Crosses(w, events[0]) && NeverCrosses(Step(w, events[0]), events[1..]))
  }

  lemma {:induction false} RunKeepsInv(w: World, events: seq<Event>, homes: Homes)
    requires Inv(w, homes) && NeverCrosses(w, events) && forall e | e in events :: AtHome(e, homes)
    ensures Inv(Run(w, events), homes)
    decreases |events|
  {
    if events != [] {
      StepKeepsInv(w, events[0], homes);
      RunKeepsInv(Step(w, events[0]), events[1..], homes);
    }
  }

  const START: World := World(TrackingRuns.EMPTY, map[])

  /**
   * However the accesses of any number of calls interleave, as long as no mint is tracked and untracked at once:
   * whenever no call is under way, the subscribed addresses are those of the two indexes, and every tracked mint
   * and every cached balance has a touch time.
   */
  lemma EveryQuietMomentIsSound(events: seq<Event>, homes: Homes)
    requires NeverCrosses(START, events) && forall e | e in events :: AtHome(e, homes)
    requires Run(START, events).calls == map[]
    ensures var i := Run(START, events).index;
      TrackingRuns.Inv(i) && forall a | a in homes :: SoundAt(i, homes, a)
  {
    RunKeepsInv(START, events, homes);
    QuietIsSound(Run(START, events), homes);
  }
}
