/** One position being opened while one cleanup is at work on its mint: which orders of their accesses lose its accounts. */
module OpenMintOrder {
  import opened Common
  import opened Positions
  import opened Manager
  import opened AccountTracking
  import opened TrackingAccesses
  import opened OpenMints
  import TrackingRaces

  /** Not an access to the positions or accounts of the mint, nor a decision of this cleanup. */
  predicate Elsewhere(e: Event, mint: Pubkey, who: nat)
  {
    match e
    case TrackAccount(_, m, _, _) => m != mint
    case AddPosition(key, _) => key.tokenMint != mint
    case ChangePosition(key, _) => key.tokenMint != mint
    case ReapPositions(_) => true
    case CountOpen(x, _) => x != who
    case ListOpen(x) => x != who
    case FindStale(x, _) => x != who
    case DropMint(_, m) => m != mint
  }

  predicate ElsewhereBut(events: seq<Event>, mint: Pubkey, who: nat, except: set<nat>)
  {
    forall j: nat | j < |events| && j !in except :: Elsewhere(events[j], mint, who)
  }

  /** The tracking call for the account and the opening of the position that wants it. */
  predicate OpenedAt(events: seq<Event>, kind: Kind, mint: Pubkey, address: Pubkey, at: nat, track: nat, add: nat)
  {
    && track < add < |events| && events[track] == TrackAccount(kind, mint, address, at)
    && events[add].AddPosition? && events[add].key.tokenMint == mint && !Terminal(events[add].position.state)
  }

  /** What matters of a world to one account of the mint and one cleanup. */
  datatype Facts = Facts(open: bool, listens: bool, touched: Option<nat>, active: Option<bool>, inHand: bool)

  function FactsOf(w: World, homes: Homes, kind: Kind, mint: Pubkey, address: Pubkey, who: nat): Facts
  {
    Facts(mint in HeldMints(w.positions), Listens(w.index, homes, kind, mint, address),
      if mint in w.index.touched then Some(w.index.touched[mint]) else None,
      if who in w.cleanups && w.cleanups[who].Surveying? then Some(mint in w.cleanups[who].active) else None,
      mint in InHand(w, who))
  }

  lemma OpenElsewhere(t: Table, e: Event, mint: Pubkey, who: nat)
    requires Elsewhere(e, mint, who)
    ensures mint in HeldMints(PositionsAfter(t, e)) <==> mint in HeldMints(t)
  {
    var u := PositionsAfter(t, e);
    forall k: PositionKey | k.tokenMint == mint
      ensures (k in t && !Terminal(t[k].state)) <==> (k in u && !Terminal(u[k].state))
    {
    }
  }

  lemma PositionsOf(w: World, e: Event)
    ensures Step(w, e).positions == PositionsAfter(w.positions, e)
  {
  }

  lemma IndexElsewhere(w: World, e: Event, homes: Homes, kind: Kind, mint: Pubkey, address: Pubkey, who: nat)
    requires TrackingRaces.IndexAtHome(w.index, homes) && AtHome(e, homes) && Elsewhere(e, mint, who)
    ensures var i, j := w.index, Step(w, e).index;
      && TrackingRaces.IndexAtHome(j, homes)
      && (Listens(j, homes, kind, mint, address) <==> Listens(i, homes, kind, mint, address))
      && (mint in j.touched <==> mint in i.touched) && (mint in i.touched ==> j.touched[mint] == i.touched[mint])
  {
    hide TrackingRaces.IndexAtHome, Listens;
    if e.TrackAccount? {
      TrackStaysHome(w.index, homes, e);
      AfterTrack(w.index, homes, e, kind, mint, address);
    } else if e.DropMint? {
      AfterUntrack(w.index, homes, e.mint);
    }
  }

  lemma CleanupElsewhere(w: World, e: Event, mint: Pubkey, who: nat)
    requires Elsewhere(e, mint, who)
    ensures Idle(w, who) ==> Idle(Step(w, e), who)
    ensures mint in InHand(Step(w, e), who) <==> mint in InHand(w, who)
    ensures who in w.cleanups && w.cleanups[who].Surveying? ==>
      who in Step(w, e).cleanups && Step(w, e).cleanups[who] == w.cleanups[who]
    ensures who in Step(w, e).cleanups && Step(w, e).cleanups[who].Surveying? ==>
      who in w.cleanups && w.cleanups[who].Surveying?
  {
    hide HeldMints, Stale, Untracked, Track, PositionsAfter;
  }

  lemma StepElsewhere(w: World, e: Event, homes: Homes, kind: Kind, mint: Pubkey, address: Pubkey, who: nat)
    requires TrackingRaces.IndexAtHome(w.index, homes) && AtHome(e, homes) && Elsewhere(e, mint, who)
    ensures FactsOf(Step(w, e), homes, kind, mint, address, who) == FactsOf(w, homes, kind, mint, address, who)
    ensures Idle(w, who) ==> Idle(Step(w, e), who)
    ensures TrackingRaces.IndexAtHome(Step(w, e).index, homes)
  {
    hide Step, InHand, HeldMints, Listens, TrackingRaces.IndexAtHome, PositionsAfter, Elsewhere, Idle;
    PositionsOf(w, e);
    OpenElsewhere(w.positions, e, mint, who);
    IndexElsewhere(w, e, homes, kind, mint, address, who);
    CleanupElsewhere(w, e, mint, who);
  }

  lemma RunPrefix(w: World, events: seq<Event>, k: nat)
    requires k < |events|
    ensures Run(w, events[..k + 1]) == Step(Run(w, events[..k]), events[k])
  {
    assert events[..k + 1][..k] == events[..k];
  }

  /** What one of the accesses under consideration does to the facts. */
  function FactsAfter(f: Facts, e: Event): Facts
  {
    match e
    case TrackAccount(_, _, _, at) => f.(listens := true, touched := Some(at))
    case AddPosition(_, _) => f.(open := true)
    case CountOpen(_, _) => f.(inHand := !f.open)
    case ListOpen(_) => f.(active := Some(f.open))
    case FindStale(_, at) =>
      if f.active.Some?
      then f.(active := None, inHand := f.touched.Some? && !f.active.value && Elapsed(at, f.touched.value) >= CANDIDATE_TTL)
      else f
    case DropMint(_, _) => if f.inHand then f.(listens := false, touched := None, inHand := false) else f
    case _ => f
  }

  /** An access of the opening or of the cleanup. */
  predicate Concerns(e: Event, kind: Kind, mint: Pubkey, address: Pubkey, who: nat)
  {
    match e
    case TrackAccount(k, m, a, _) => (k, m, a) == (kind, mint, address)
    case AddPosition(key, p) => key.tokenMint == mint && !Terminal(p.state)
    case CountOpen(x, m) => x == who && m == mint
    case ListOpen(x) => x == who
    case FindStale(x, _) => x == who
    case DropMint(x, m) => x == who && m == mint
    case _ => false
  }

  lemma AddOpens(t: Table, key: PositionKey, p: PositionData)
    requires !Terminal(p.state)
    ensures key.tokenMint in HeldMints(t[key := p])
  {
    var u := t[key := p];
    assert key in u && !Terminal(u[key].state);
  }

  lemma StepConcerned(w: World, e: Event, homes: Homes, kind: Kind, mint: Pubkey, address: Pubkey, who: nat)
    requires TrackingRaces.IndexAtHome(w.index, homes) && AtHome(e, homes) && Concerns(e, kind, mint, address, who)
    requires e.CountOpen? || e.ListOpen? ==> Idle(w, who)
    ensures FactsOf(Step(w, e), homes, kind, mint, address, who) == FactsAfter(FactsOf(w, homes, kind, mint, address, who), e)
    ensures TrackingRaces.IndexAtHome(Step(w, e).index, homes)
    ensures (e.TrackAccount? || e.AddPosition?) && Idle(w, who) ==> Idle(Step(w, e), who)
  {
    hide HeldMints, Listens, TrackingRaces.IndexAtHome;
    if e.TrackAccount? {
      TrackStaysHome(w.index, homes, e);
      AfterTrack(w.index, homes, e, kind, mint, address);
    } else if e.DropMint? {
      AfterUntrack(w.index, homes, e.mint);
    } else if e.AddPosition? {
      AddOpens(w.positions, e.key, e.position);
    }
  }

  /** The step from one prefix of a run to the next, by which of the two kinds of access it is. */
  lemma NextFacts(w: World, events: seq<Event>, k: nat, homes: Homes, kind: Kind, mint: Pubkey, address: Pubkey, who: nat)
    requires k < |events| && AtHome(events[k], homes)
    requires Elsewhere(events[k], mint, who) || Concerns(events[k], kind, mint, address, who)
    requires var v := Run(w, events[..k]);
      && TrackingRaces.IndexAtHome(v.index, homes)
      && (!Elsewhere(events[k], mint, who) && (events[k].CountOpen? || events[k].ListOpen?) ==> Idle(v, who))
    ensures var v, u := Run(w, events[..k]), Run(w, events[..k + 1]);
      && TrackingRaces.IndexAtHome(u.index, homes)
      && FactsOf(u, homes, kind, mint, address, who)
        == (if Elsewhere(events[k], mint, who) then FactsOf(v, homes, kind, mint, address, who)
            else FactsAfter(FactsOf(v, homes, kind, mint, address, who), events[k]))
      && (Idle(v, who) && (Elsewhere(events[k], mint, who) || events[k].TrackAccount? || events[k].AddPosition?) ==> Idle(u, who))
  {
    hide FactsOf, FactsAfter, Step, Run, Elsewhere, Concerns, Idle, TrackingRaces.IndexAtHome, AtHome;
    RunPrefix(w, events, k);
    var v := Run(w, events[..k]);
    if Elsewhere(events[k], mint, who) {
      StepElsewhere(v, events[k], homes, kind, mint, address, who);
    } else {
      StepConcerned(v, events[k], homes, kind, mint, address, who);
    }
  }

  predicate AllAtHome(events: seq<Event>, homes: Homes)
  {
    forall j | 0 <= j < |events| :: AtHome(events[j], homes)
  }

  // ---- After a sale ----

  predicate SaleCleanupAt(events: seq<Event>, mint: Pubkey, who: nat, count: nat, drop: nat)
  {
    count < drop < |events| && events[count] == CountOpen(who, mint) && events[drop] == DropMint(who, mint)
  }

  lemma {:induction false} SaleFacts(w: World, events: seq<Event>, homes: Homes, kind: Kind, mint: Pubkey, address: Pubkey,
                                     at: nat, track: nat, add: nat, who: nat, count: nat, drop: nat, k: nat)
    requires k <= |events| && AllAtHome(events, homes) && TrackingRaces.IndexAtHome(w.index, homes)
    requires address in homes && homes[address] == (kind, mint) && mint !in HeldMints(w.positions) && Idle(w, who)
    requires OpenedAt(events, kind, mint, address, at, track, add) && SaleCleanupAt(events, mint, who, count, drop)
    requires ElsewhereBut(events, mint, who, {track, add, count, drop})
    ensures var v := Run(w, events[..k]);
      var f := FactsOf(v, homes, kind, mint, address, who);
      && TrackingRaces.IndexAtHome(v.index, homes) && (k <= count ==> Idle(v, who))
      && f.open == (add < k)
      && f.inHand == (count < k <= drop && count < add)
      && (track < k ==> f.listens == !(track < drop < k && count < add))
    decreases k
  {
    hide FactsOf, Run, HeldMints, TrackingRaces.IndexAtHome, Idle;
    if k == 0 {
      StartFacts(w, events, homes, kind, mint, address, who);
    } else {
      var j: nat := k - 1;
      SaleFacts(w, events, homes, kind, mint, address, at, track, add, who, count, drop, j);
      assert j !in {track, add, count, drop} ==> Elsewhere(events[j], mint, who);
      NextFacts(w, events, j, homes, kind, mint, address, who);
    }
  }

  lemma StartFacts(w: World, events: seq<Event>, homes: Homes, kind: Kind, mint: Pubkey, address: Pubkey, who: nat)
    ensures Run(w, events[..0]) == w
    ensures var f := FactsOf(w, homes, kind, mint, address, who);
      && f.open == (mint in HeldMints(w.positions)) && (Idle(w, who) ==> !f.inHand && f.active.None?)
      && f.touched == if mint in w.index.touched then Some(w.index.touched[mint]) else None
  {
    hide HeldMints, Listens;
  }

  /**
   * However the opening of a position and the cleanup after the sale of another one interleave, the account stays
   * subscribed exactly if the cleanup counted after the position was in the table, or was through with untracking
   * before the account was tracked.
   */
  lemma SaleCleanupIff(w: World, events: seq<Event>, homes: Homes, kind: Kind, mint: Pubkey, address: Pubkey,
                       at: nat, track: nat, add: nat, who: nat, count: nat, drop: nat)
    requires AllAtHome(events, homes) && TrackingRaces.IndexAtHome(w.index, homes)
    requires address in homes && homes[address] == (kind, mint) && mint !in HeldMints(w.positions) && Idle(w, who)
    requires OpenedAt(events, kind, mint, address, at, track, add) && SaleCleanupAt(events, mint, who, count, drop)
    requires ElsewhereBut(events, mint, who, {track, add, count, drop})
    ensures var v := Run(w, events);
      && mint in HeldMints(v.positions)
      && (Listens(v.index, homes, kind, mint, address) <==> add < count || drop < track)
  {
    hide Run, HeldMints, Listens, Idle, ElsewhereBut, AllAtHome, TrackingRaces.IndexAtHome;
    SaleFacts(w, events, homes, kind, mint, address, at, track, add, who, count, drop, |events|);
    assert events[..|events|] == events;
  }

  // ---- Stale candidates ----

  predicate PruneAt(events: seq<Event>, mint: Pubkey, who: nat, now: nat, survey: nat, find: nat, drop: nat)
  {
    && survey < find < drop < |events|
    && events[survey] == ListOpen(who) && events[find] == FindStale(who, now) && events[drop] == DropMint(who, mint)
  }

  /** The pruner takes the mint for stale: not open when it listed, and not touched since or too long ago. */
  predicate Doomed(at: nat, track: nat, add: nat, now: nat, survey: nat, find: nat)
  {
    survey < add && !(track < find && Elapsed(now, at) < 120)
  }

  lemma {:induction false} PruneFacts(w: World, events: seq<Event>, homes: Homes, kind: Kind, mint: Pubkey, address: Pubkey,
                                      at: nat, track: nat, add: nat, who: nat, now: nat, survey: nat, find: nat, drop: nat, k: nat)
    requires k <= |events| && AllAtHome(events, homes) && TrackingRaces.IndexAtHome(w.index, homes)
    requires address in homes && homes[address] == (kind, mint) && mint !in HeldMints(w.positions) && Idle(w, who)
    requires mint in w.index.touched && Elapsed(now, w.index.touched[mint]) >= 120
    requires OpenedAt(events, kind, mint, address, at, track, add) && PruneAt(events, mint, who, now, survey, find, drop)
    requires ElsewhereBut(events, mint, who, {track, add, survey, find, drop})
    ensures var v := Run(w, events[..k]);
      var f := FactsOf(v, homes, kind, mint, address, who);
      && TrackingRaces.IndexAtHome(v.index, homes) && (k <= survey ==> Idle(v, who))
      && f.open == (add < k)
      && (survey < k <= find ==> f.active == Some(add < survey))
      && (k <= find ==> f.touched == Some(if track < k then at else w.index.touched[mint]))
      && f.inHand == (find < k <= drop && Doomed(at, track, add, now, survey, find))
      && (track < k ==> f.listens == !(track < drop < k && Doomed(at, track, add, now, survey, find)))
    decreases k
  {
    hide FactsOf, Run, HeldMints, TrackingRaces.IndexAtHome, Idle;
    if k == 0 {
      StartFacts(w, events, homes, kind, mint, address, who);
    } else {
      var j: nat := k - 1;
      PruneFacts(w, events, homes, kind, mint, address, at, track, add, who, now, survey, find, drop, j);
      assert j !in {track, add, survey, find, drop} ==> Elsewhere(events[j], mint, who);
      NextFacts(w, events, j, homes, kind, mint, address, who);
    }
  }

  /**
   * Against a pruner, for a candidate gone stale: the account stays subscribed exactly if the position was in the
   * table before the pruner listed the open ones, or the account was tracked in time for its look at the touch
   * times, or only after it had untracked the mint.
   */
  lemma PruneIff(w: World, events: seq<Event>, homes: Homes, kind: Kind, mint: Pubkey, address: Pubkey,
                 at: nat, track: nat, add: nat, who: nat, now: nat, survey: nat, find: nat, drop: nat)
    requires AllAtHome(events, homes) && TrackingRaces.IndexAtHome(w.index, homes)
    requires address in homes && homes[address] == (kind, mint) && mint !in HeldMints(w.positions) && Idle(w, who)
    requires mint in w.index.touched && Elapsed(now, w.index.touched[mint]) >= 120
    requires OpenedAt(events, kind, mint, address, at, track, add) && PruneAt(events, mint, who, now, survey, find, drop)
    requires ElsewhereBut(events, mint, who, {track, add, survey, find, drop})
    ensures var v := Run(w, events);
      && mint in HeldMints(v.positions)
      && (Listens(v.index, homes, kind, mint, address) <==>
            add < survey || (track < find && Elapsed(now, at) < 120) || drop < track)
  {
    hide Run, HeldMints, Listens, Idle, ElsewhereBut, AllAtHome, TrackingRaces.IndexAtHome;
    PruneFacts(w, events, homes, kind, mint, address, at, track, add, who, now, survey, find, drop, |events|);
    assert events[..|events|] == events;
  }
}
