/**
 * Whether the bot still listens to the accounts of a mint it holds: positions opening and closing on one side, and
 * on the other the cleanups after a sale and of stale candidates, which look first and untrack later.
 */
module OpenMints {
  import opened Common
  import opened Positions
  import opened Manager
  import opened AccountTracking
  import opened TrackingAccesses
  import TrackingRaces

  /** Seconds without a touch after which a candidate without open position is dropped. */
  const CANDIDATE_TTL: nat := 120

  /** A cleanup has listed the open mints and will look for stale ones, or has mints left to untrack. */
  datatype Cleanup = Surveying(active: set<Pubkey>) | Dropping(mints: set<Pubkey>)

  datatype World = World(index: Index, positions: Table, cleanups: map<nat, Cleanup>)

  datatype Event =
    | TrackAccount(kind: Kind, mint: Pubkey, address: Pubkey, at: nat)
    | AddPosition(key: PositionKey, position: PositionData)
    | ChangePosition(key: PositionKey, op: Operation)
    | ReapPositions(at: nat)
    | CountOpen(who: nat, mint: Pubkey)
    | ListOpen(who: nat)
    | FindStale(who: nat, at: nat)
    | DropMint(who: nat, mint: Pubkey)

  /** The mints with a position that is neither closed nor failed. */
  function HeldMints(t: Table): set<Pubkey>
  {
    set k | k in t && !Terminal(t[k].state) :: k.tokenMint
  }

  /** The count after a sale and the list for the pruner agree on which mints are open. */
  lemma HeldIffCounted(t: Table, mint: Pubkey)
    ensures mint in HeldMints(t) <==> |OpenKeys(t, mint)| != 0
  {
    if mint in HeldMints(t) {
      var k :| k in t && !Terminal(t[k].state) && k.tokenMint == mint;
      assert k in OpenKeys(t, mint);
    }
  }

  /** The mints that a cleanup is going to untrack, whatever happens meanwhile. */
  function InHand(w: World, who: nat): set<Pubkey>
  {
    if who in w.cleanups && w.cleanups[who].Dropping? then w.cleanups[who].mints else {}
  }

  predicate Idle(w: World, who: nat)
  {
    who !in w.cleanups || w.cleanups[who] == Dropping({})
  }

  predicate Enabled(w: World, e: Event)
  {
    match e
    case CountOpen(who, _) => Idle(w, who)
    case ListOpen(who) => Idle(w, who)
    case FindStale(who, _) => who in w.cleanups && w.cleanups[who].Surveying?
    case DropMint(who, mint) => mint in InHand(w, who)
    case _ => true
  }

  function Goto(w: World, who: nat, c: Cleanup): World
  {
    w.(cleanups := w.cleanups[who := c])
  }

  function PositionsAfter(t: Table, e: Event): Table
  {
    match e
    case AddPosition(key, position) => t[key := position]
    case ChangePosition(key, op) => Manager.Update(t, key, op)
    case ReapPositions(at) => map k | k in t && !Reapable(t[k], at) :: t[k]
    case _ => t
  }

  /** One access; an event that is not enabled changes nothing. */
  function Step(w: World, e: Event): World
  {
    if !Enabled(w, e) then w else
    match e
    case TrackAccount(kind, mint, address, at) => w.(index := Track(w.index, kind, mint, address, at))
    case CountOpen(who, mint) => Goto(w, who, Dropping(if mint in HeldMints(w.positions) then {} else {mint}))
    case ListOpen(who) => Goto(w, who, Surveying(HeldMints(w.positions)))
    case FindStale(who, at) => Goto(w, who, Dropping(Stale(w.index, w.cleanups[who].active, CANDIDATE_TTL, at)))
    case DropMint(who, mint) =>
      Goto(w, who, Dropping(w.cleanups[who].mints - {mint})).(index := Untracked(w.index, {mint}))
    case _ => w.(positions := PositionsAfter(w.positions, e))
  }

  function Run(w: World, events: seq<Event>): World
    decreases |events|
  {
    if events == [] then w else Step(Run(w, events[..|events| - 1]), events[|events| - 1])
  }

  predicate AtHome(e: Event, homes: Homes)
  {
    e.TrackAccount? ==> e.address in homes && homes[e.address] == (e.kind, e.mint)
  }

  // ---- What tracking and untracking do to what is heard ----

  predicate Listens(i: Index, homes: Homes, kind: Kind, mint: Pubkey, address: Pubkey)
  {
    address in homes && homes[address] == (kind, mint) && Linked(i, kind, address) && address in i.subscribed
  }

  /** Updates of some account of the mint come in, of the kind asked for. */
  ghost predicate Heard(i: Index, homes: Homes, kind: Kind, mint: Pubkey)
  {
    exists address :: Listens(i, homes, kind, mint, address)
  }

  lemma TrackStaysHome(i: Index, homes: Homes, e: Event)
    requires TrackingRaces.IndexAtHome(i, homes) && e.TrackAccount? && AtHome(e, homes)
    ensures TrackingRaces.IndexAtHome(Track(i, e.kind, e.mint, e.address, e.at), homes)
  {
    hide TrackingRaces.MapAtHome;
    TrackingRaces.MapHomeAfter(if e.kind.CurveAccount? then i.curves else i.atas, e.kind, homes, e.address, e.mint);
  }

  lemma AfterTrack(i: Index, homes: Homes, e: Event, kind: Kind, mint: Pubkey, a: Pubkey)
    requires TrackingRaces.IndexAtHome(i, homes) && e.TrackAccount? && AtHome(e, homes)
    ensures Listens(Track(i, e.kind, e.mint, e.address, e.at), homes, kind, mint, a) <==>
      Listens(i, homes, kind, mint, a) || (kind, mint, a) == (e.kind, e.mint, e.address)
  {
  }

  lemma AfterUntrack(i: Index, homes: Homes, mint: Pubkey)
    requires TrackingRaces.IndexAtHome(i, homes)
    ensures var j := Untracked(i, {mint});
      && TrackingRaces.IndexAtHome(j, homes)
      && (forall kind, m, a :: Listens(j, homes, kind, m, a) <==> Listens(i, homes, kind, m, a) && m != mint)
  {
  }

  // ---- No open mint goes unheard ----

  /** Every mint with an open position is heard, and no cleanup is going to untrack it. */
  ghost predicate Inv(w: World, homes: Homes, kind: Kind)
  {
    && TrackingRaces.IndexAtHome(w.index, homes)
    && (forall m | m in HeldMints(w.positions) :: Heard(w.index, homes, kind, m))
    && (forall who: nat :: InHand(w, who) !! HeldMints(w.positions))
  }

  /** A position is opened, or comes back to life, for a mint that is not heard or that some cleanup has in hand. */
  ghost predicate OpensTooEarly(w: World, e: Event, homes: Homes, kind: Kind)
  {
    exists m :: m in HeldMints(PositionsAfter(w.positions, e)) && m !in HeldMints(w.positions)
      && (!Heard(w.index, homes, kind, m) || exists who: nat :: m in InHand(w, who))
  }

  /** A pruner takes a mint for stale whose position was opened after it had listed the open ones. */
  predicate DoomsOpenMint(w: World, e: Event)
  {
    && e.FindStale? && Enabled(w, e)
    && !(Stale(w.index, w.cleanups[e.who].active, CANDIDATE_TTL, e.at) !! HeldMints(w.positions))
  }

  lemma InHandAfter(w: World, e: Event, who: nat)
    ensures InHand(Step(w, e), who) ==
      match e
      case CountOpen(x, mint) => if x == who && Enabled(w, e) then (if mint in HeldMints(w.positions) then {} else {mint}) else InHand(w, who)
      case ListOpen(x) => if x == who && Enabled(w, e) then {} else InHand(w, who)
      case FindStale(x, at) =>
        if x == who && Enabled(w, e) then Stale(w.index, w.cleanups[x].active, CANDIDATE_TTL, at) else InHand(w, who)
      case DropMint(x, mint) => if x == who then InHand(w, who) - {mint} else InHand(w, who)
      case _ => InHand(w, who)
  {
    hide HeldMints, Stale;
  }

  lemma TrackKeeps(w: World, e: Event, homes: Homes, kind: Kind)
    requires Inv(w, homes, kind) && AtHome(e, homes) && e.TrackAccount?
    ensures Inv(Step(w, e), homes, kind)
  {
    hide HeldMints, TrackingRaces.IndexAtHome, Listens, Track;
    TrackStaysHome(w.index, homes, e);
    forall m | m in HeldMints(w.positions)
      ensures Heard(Step(w, e).index, homes, kind, m)
    {
      var a :| Listens(w.index, homes, kind, m, a);
      AfterTrack(w.index, homes, e, kind, m, a);
    }
    forall who: nat ensures InHand(Step(w, e), who) !! HeldMints(w.positions) {
      InHandAfter(w, e, who);
    }
  }

  lemma DropKeeps(w: World, e: Event, homes: Homes, kind: Kind)
    requires Inv(w, homes, kind) && e.DropMint?
    ensures Inv(Step(w, e), homes, kind)
  {
    hide HeldMints, TrackingRaces.IndexAtHome, Listens, Untracked;
    AfterUntrack(w.index, homes, e.mint);
    forall m | m in HeldMints(w.positions)
      ensures Heard(Step(w, e).index, homes, kind, m)
    {
      var a :| Listens(w.index, homes, kind, m, a);
    }
    forall who: nat ensures InHand(Step(w, e), who) !! HeldMints(w.positions) {
      InHandAfter(w, e, who);
    }
  }

  lemma CleanupKeepsIff(w: World, e: Event, homes: Homes, kind: Kind)
    requires Inv(w, homes, kind) && (e.CountOpen? || e.ListOpen? || e.FindStale?)
    ensures Inv(Step(w, e), homes, kind) <==> !DoomsOpenMint(w, e)
  {
    hide HeldMints, TrackingRaces.IndexAtHome, Heard, Stale, InHand;
    var v := Step(w, e);
    if Enabled(w, e) && DoomsOpenMint(w, e) {
      InHandAfter(w, e, e.who);
      assert !(InHand(v, e.who) !! HeldMints(w.positions));
    } else {
      forall who: nat ensures InHand(v, who) !! HeldMints(w.positions) {
        InHandAfter(w, e, who);
      }
    }
  }

  lemma PositionsKeepIff(w: World, e: Event, homes: Homes, kind: Kind)
    requires Inv(w, homes, kind) && (e.AddPosition? || e.ChangePosition? || e.ReapPositions?)
    ensures Inv(Step(w, e), homes, kind) <==> !OpensTooEarly(w, e, homes, kind)
  {
    hide HeldMints, TrackingRaces.IndexAtHome, Heard, PositionsAfter;
    var v := Step(w, e);
    forall who: nat ensures InHand(v, who) == InHand(w, who) {
      InHandAfter(w, e, who);
    }
    if OpensTooEarly(w, e, homes, kind) {
      var m :| m in HeldMints(v.positions) && m !in HeldMints(w.positions)
        && (!Heard(w.index, homes, kind, m) || exists who: nat :: m in InHand(w, who));
      if Heard(w.index, homes, kind, m) {
        var who: nat :| m in InHand(w, who);
        assert !(InHand(v, who) !! HeldMints(v.positions));
      }
    } else {
      forall m | m in HeldMints(v.positions)
        ensures Heard(v.index, homes, kind, m) && forall who: nat :: m !in InHand(v, who)
      {
        if m in HeldMints(w.positions) {
          assert forall who: nat :: InHand(w, who) !! HeldMints(w.positions);
        }
      }
    }
  }

  /** The steps, among all, after which an open mint goes unheard or is going to. */
  lemma StepKeepsInvIff(w: World, e: Event, homes: Homes, kind: Kind)
    requires Inv(w, homes, kind) && AtHome(e, homes)
    ensures Inv(Step(w, e), homes, kind) <==> !OpensTooEarly(w, e, homes, kind) && !DoomsOpenMint(w, e)
  {
    hide Inv, Step, HeldMints, Heard, InHand;
    if e.TrackAccount? {
      TrackKeeps(w, e, homes, kind);
    } else if e.DropMint? {
      DropKeeps(w, e, homes, kind);
    } else if e.CountOpen? || e.ListOpen? || e.FindStale? {
      CleanupKeepsIff(w, e, homes, kind);
    } else {
      PositionsKeepIff(w, e, homes, kind);
    }
  }

  ghost predicate Orderly(w: World, events: seq<Event>, homes: Homes, kind: Kind)
  {
    forall k | 0 <= k < |events| ::
      && AtHome(events[k], homes)
      && !OpensTooEarly(Run(w, events[..k]), events[k], homes, kind)
      && !DoomsOpenMint(Run(w, events[..k]), events[k])
  }

  /** Over every other run, with any number of cleanups at work, each mint with an open position stays heard. */
  lemma {:induction false} OpenMintsStayHeard(w: World, events: seq<Event>, homes: Homes, kind: Kind)
    requires Inv(w, homes, kind) && Orderly(w, events, homes, kind)
    ensures Inv(Run(w, events), homes, kind)
    decreases |events|
  {
    hide Inv, Step, OpensTooEarly, DoomsOpenMint;
    if events != [] {
      var n := |events| - 1;
      var init := events[..n];
      forall k | 0 <= k < |init| ensures events[..k] == init[..k] && events[k] == init[k] {
      }
      OpenMintsStayHeard(w, init, homes, kind);
      StepKeepsInvIff(Run(w, init), events[n], homes, kind);
    }
  }
}
