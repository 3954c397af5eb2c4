/**
 * One position instance under concurrent actors: any number of sell executors (the signal loop and
 * manual partial sells), buy confirmers, the fallback monitor and its reaper, interleaved at every
 * access to the shared position map.  The fallback monitor is let through even where the bot's waits for its own
 * lock (FallbackLock), so the runs here include all there are.
 */
module Lifecycle {
  import opened Common
  import opened Positions

  /** Where a sell executor stands: it reads a copy of the position first and claims the sell later. */
  datatype Executor =
    | Idle
    | HasRead(previous: PositionState, partial: bool)
    | Holding(previous: PositionState, partial: bool)
    | AboutToFail

  /** The two counts are of the present instance; a replacement starts them again. */
  datatype World = World(
    position: Option<PositionData>,
    executors: map<nat, Executor>,
    fallbackChecking: bool,
    salesReported: nat,
    timesClosed: nat)

  datatype Event =
    | Read(who: nat, partial: bool)
    | GiveUp(who: nat)
    | SkipZeroBalance(who: nat)
    | FailAfterSkips(who: nat)
    | Claim(who: nat)
    | ReportSold(who: nat, signature: string)
    | HandBack(who: nat, suspend: bool)
    | PartSold(who: nat, sold: nat, at: nat)
    | BuyConfirmed(amount: nat, curvePrice: Option<real>, at: nat)
    | BuyFailed
    | FallbackPick
    | FallbackResolve(balanceGrew: bool, amount: nat, curvePrice: Option<real>, at: nat)
    | MarketPrice(price: real)
    | EntryCorrected(price: real)
    | Reap
    | Replace(next: PositionData)

  function Local(w: World, who: nat): Executor
  {
    if who in w.executors then w.executors[who] else Idle
  }

  predicate Holds(w: World, who: nat)
  {
    Local(w, who).Holding?
  }

  /** What a position-map access does: nothing when the entry is gone. */
  function Access(position: Option<PositionData>, op: Operation): Option<PositionData>
  {
    if position.Some? then Some(Apply(position.value, op)) else None
  }

  function Goto(w: World, who: nat, e: Executor): World
  {
    w.(executors := w.executors[who := e])
  }

  function Touch(w: World, op: Operation): World
  {
    w.(position := Access(w.position, op))
  }

  predicate InState(w: World, state: PositionState)
  {
    w.position.Some? && w.position.value.state == state
  }

  predicate Enabled(w: World, e: Event)
  {
    match e
    case Read(who, _) => Local(w, who).Idle? && w.position.Some?
    case GiveUp(who) => Local(w, who).HasRead?
    case SkipZeroBalance(who) => Local(w, who).HasRead? && !Local(w, who).partial
    case FailAfterSkips(who) => Local(w, who).AboutToFail?
    case Claim(who) => Local(w, who).HasRead?
    case ReportSold(who, _) => Holds(w, who) && !Local(w, who).partial
    case HandBack(who, suspend) => Holds(w, who) && (suspend ==> !Local(w, who).partial)
    case PartSold(who, _, _) => Holds(w, who) && Local(w, who).partial
    case FallbackPick => !w.fallbackChecking && (InState(w, Submitted) || InState(w, Confirming))
    case FallbackResolve(_, _, _, _) => w.fallbackChecking
    case Reap => InState(w, Closed) || InState(w, Failed)
    case Replace(next) => next.state.Confirming?
    case _ => true
  }

  /** One atomic step; an event that is not enabled changes nothing. */
  function Step(w: World, e: Event): World
  {
    if !Enabled(w, e) then w else
    match e
    case Read(who, partial) => Goto(w, who, HasRead(w.position.value.state, partial))
    case GiveUp(who) => Goto(w, who, Idle)
    case SkipZeroBalance(who) =>
      var v := Touch(w, Operation.SkipZeroBalance);
      Goto(v, who, if v.position.Some? && v.position.value.zeroSkips >= MAX_ZERO_BALANCE_SKIPS then AboutToFail else Idle)
    case FailAfterSkips(who) => Goto(Touch(w, Fail), who, Idle)
    case Claim(who) =>
      if w.position.Some? && Accepted(w.position.value, StartSelling)
      then Goto(Touch(w, StartSelling), who, Holding(Local(w, who).previous, Local(w, who).partial))
      else Goto(w, who, Idle)
    case ReportSold(who, signature) =>
      var v := Goto(Touch(w, Close(signature)), who, Idle);
      v.(salesReported := w.salesReported + 1, timesClosed := w.timesClosed + if InState(w, Selling) then 1 else 0)
    case HandBack(who, suspend) =>
      var previous := Local(w, who).previous;
      Goto(Touch(w, if suspend then Suspend(previous, MAX_AUTO_SELL_SIGNAL_ATTEMPTS) else Restore(previous)), who, Idle)
    case PartSold(who, sold, at) => Goto(Touch(w, SellPart(sold, at)), who, Idle)
    case BuyConfirmed(amount, curvePrice, at) => Touch(w, Activate(amount, curvePrice, at))
    case BuyFailed => Touch(w, Fail)
    case FallbackPick => w.(fallbackChecking := true)
    case FallbackResolve(balanceGrew, amount, curvePrice, at) =>
      Touch(w, if balanceGrew then Activate(amount, curvePrice, at) else Fail).(fallbackChecking := false)
    case MarketPrice(price) => Touch(w, Tick(price))
    case EntryCorrected(price) => Touch(w, CorrectEntry(price))
    case Reap => w.(position := None)
    case Replace(next) => w.(position := Some(next), salesReported := 0, timesClosed := 0)
  }

  function Run(w: World, events: seq<Event>): World
    decreases |events|
  {
    if events == [] then w else Run(Step(w, events[0]), events[1..])
  }

  lemma {:induction false} RunAppend(w: World, a: seq<Event>, b: seq<Event>)
    ensures Run(w, a + b) == Run(Run(w, a), b)
    decreases |a|
  {
    if a == [] {
      assert a + b == b;
    } else {
      assert (a + b)[1..] == a[1..] + b;
      RunAppend(Step(w, a[0]), a[1..], b);
    }
  }

  lemma RunOne(w: World, e: Event)
    ensures Run(w, [e]) == Step(w, e)
  {
    hide Step;
    assert Run(w, [e]) == Run(Step(w, e), []);
  }

  lemma RunFour(w: World, es: seq<Event>)
    requires |es| == 4
    ensures Run(w, es) == Step(Step(Step(Step(w, es[0]), es[1]), es[2]), es[3])
  {
    hide Step;
    assert es == [es[0]] + [es[1]] + [es[2]] + [es[3]];
    RunAppend(w, [es[0]] + [es[1]] + [es[2]], [es[3]]);
    RunAppend(w, [es[0]] + [es[1]], [es[2]]);
    RunAppend(w, [es[0]], [es[1]]);
    forall v: World, i: nat | i < 4 ensures Run(v, [es[i]]) == Step(v, es[i]) {
      RunOne(v, es[i]);
    }
  }

  /** A position enters the map in `Confirming`, right after its buy was sent. */
  function Start(p: PositionData): World
    requires p.state.Confirming?
  {
    World(Some(p), map[], false, 0, 0)
  }

  // ---- Safety ----

  ghost predicate NoHolder(w: World)
  {
    forall i :: !Holds(w, i)
  }

  /** Gone or over, and nobody is in the middle of a sell. */
  ghost predicate Finished(w: World)
  {
    (w.position.Some? ==> Terminal(w.position.value.state)) && NoHolder(w)
  }

  /** At most one executor is between a successful claim and its release, and meanwhile nobody else can claim. */
  ghost predicate Exclusive(w: World)
  {
    && (forall i, j :: Holds(w, i) && Holds(w, j) ==> i == j)
    && (forall i :: Holds(w, i) ==> w.position.None? || InState(w, Selling) || InState(w, Failed))
  }

  ghost predicate Inv(w: World)
  {
    && Exclusive(w)
    && w.timesClosed <= w.salesReported <= 1
    && (w.salesReported > 0 ==> Finished(w))
  }

  /** A new buy of the same group and token takes the place of an entry that somebody is still selling. */
  ghost predicate ReplacesUnderHolder(w: World, e: Event)
  {
    e.Replace? && Enabled(w, e) && !NoHolder(w)
  }

  /** What is to be shown of every step. */
  ghost predicate Kept(w: World, v: World)
  {
    && Inv(v)
    && (Finished(w) ==> Finished(v) && v.salesReported == w.salesReported && v.timesClosed == w.timesClosed)
  }

  lemma ReleaseKeeps(w: World, e: Event)
    requires Inv(w) && (e.ReportSold? || e.HandBack? || e.PartSold?)
    ensures Kept(w, Step(w, e))
  {
    var v := Step(w, e);
    assert forall i :: Holds(v, i) ==> Holds(w, i);
    if Enabled(w, e) {
      assert Holds(w, e.who);
      assert NoHolder(v);
    }
  }

  lemma ClaimKeeps(w: World, e: Event)
    requires Inv(w) && e.Claim?
    ensures Kept(w, Step(w, e))
  {
    var v := Step(w, e);
    assert forall i | i != e.who :: Holds(v, i) ==> Holds(w, i);
  }

  lemma OtherStepKeeps(w: World, e: Event)
    requires Inv(w) && !(e.ReportSold? || e.HandBack? || e.PartSold? || e.Claim? || e.Replace?)
    ensures Kept(w, Step(w, e))
  {
    var v := Step(w, e);
    assert forall i :: Holds(v, i) <==> Holds(w, i);
  }

  lemma ReplaceKeepsIff(w: World, e: Event)
    requires Inv(w) && e.Replace? && Enabled(w, e)
    ensures Exclusive(Step(w, e)) <==> NoHolder(w)
    ensures Inv(Step(w, e)) <==> NoHolder(w)
    ensures !Finished(Step(w, e))
  {
    var v := Step(w, e);
    assert forall i :: Holds(v, i) <==> Holds(w, i);
  }

  /**
   * Every step keeps mutual exclusion and the sale bound, except exactly the replacement of an entry that
   * somebody is selling; and a finished position stays finished until it is replaced.
   */
  lemma StepKeepsInv(w: World, e: Event)
    requires Inv(w)
    ensures Inv(Step(w, e)) <==> !ReplacesUnderHolder(w, e)
    ensures Finished(w) ==> (Finished(Step(w, e)) <==> !(e.Replace? && Enabled(w, e)))
    ensures Finished(w) && !e.Replace? ==>
      Step(w, e).salesReported == w.salesReported && Step(w, e).timesClosed == w.timesClosed
  {
    hide Step, Inv, Exclusive, Finished, NoHolder;
    if e.Replace? {
      if Enabled(w, e) {
        ReplaceKeepsIff(w, e);
      } else {
        NotEnabled(w, e);
      }
    } else if e.ReportSold? || e.HandBack? || e.PartSold? {
      ReleaseKeeps(w, e);
    } else if e.Claim? {
      ClaimKeeps(w, e);
    } else {
      OtherStepKeeps(w, e);
    }
  }

  lemma NotEnabled(w: World, e: Event)
    requires !Enabled(w, e)
    ensures Step(w, e) == w
  {
  }

  /** No entry is replaced while somebody is selling it. */
  ghost predicate Orderly(w: World, events: seq<Event>)
    decreases |events|
  {
    events == [] || (!ReplacesUnderHolder(w, events[0]) && Orderly(Step(w, events[0]), events[1..]))
  }

  /** In every such interleaving: one seller at most, a sell is reported at most once and the position closed at most once. */
  lemma {:induction false} EveryRunIsSafe(w: World, events: seq<Event>)
    requires Inv(w) && Orderly(w, events)
    ensures Inv(Run(w, events))
    decreases |events|
  {
    if events != [] {
      StepKeepsInv(w, events[0]);
      EveryRunIsSafe(Step(w, events[0]), events[1..]);
    }
  }

  lemma AtMostOneSellerAndOneSale(p: PositionData, events: seq<Event>)
    requires p.state.Confirming? && Orderly(Start(p), events)
    ensures Exclusive(Run(Start(p), events))
    ensures Run(Start(p), events).timesClosed <= Run(Start(p), events).salesReported <= 1
    ensures Run(Start(p), events).salesReported == 1 ==> Finished(Run(Start(p), events))
  {
    EveryRunIsSafe(Start(p), events);
  }

  /**
   * The bot does not wait for that: with a seller left over from the old entry, the new one is soon sold by two
   * at once, one of whom the other's hand-back let in.
   */
  lemma ReplacementBreaksExclusion(p: PositionData, q: PositionData)
    requires p.state.Confirming? && q.state.Confirming?
    ensures var w := Run(Start(p), [Read(7, false), Claim(7), Replace(q), Read(1, true), Claim(1), HandBack(7, false), Read(7, false), Claim(7)]);
      Holds(w, 1) && Holds(w, 7) && InState(w, Selling)
  {
    hide *;
    var first := [Read(7, false), Claim(7), Replace(q), Read(1, true)];
    var rest := [Claim(1), HandBack(7, false), Read(7, false), Claim(7)];
    RunAppend(Start(p), first, rest);
    assert first + rest == [Read(7, false), Claim(7), Replace(q), Read(1, true), Claim(1), HandBack(7, false), Read(7, false), Claim(7)];
    SellerOutlivesItsPosition(p, q, first);
    SecondSellerIsLetIn(Run(Start(p), first), q, rest);
  }

  function Holders(w: World): set<nat>
  {
    set i | i in w.executors && w.executors[i].Holding?
  }

  /** Replacements of the run that happened under a seller. */
  ghost function Intrusions(w: World, events: seq<Event>): nat
    decreases |events|
  {
    if events == [] then 0
    else (if ReplacesUnderHolder(w, events[0]) then 1 else 0) + Intrusions(Step(w, events[0]), events[1..])
  }

  predicate Claimable(w: World)
  {
    w.position.Some? && Sellable(w.position.value.state)
  }

  predicate SellersWithin(w: World, bound: nat)
  {
    |Holders(w)| + (if Claimable(w) then 1 else 0) <= bound
  }

  lemma HoldersAfter(w: World, e: Event)
    ensures Holders(Step(w, e)) ==
      if e.Claim? && Enabled(w, e) && Claimable(w) then Holders(w) + {e.who}
      else if e.Claim? || e.ReportSold? || e.HandBack? || e.PartSold? then (if Enabled(w, e) then Holders(w) - {e.who} else Holders(w))
      else Holders(w)
  {
    hide Apply;
  }

  /** Only a hand-back, a partial booking or a replacement makes a position claimable. */
  lemma ClaimableAfter(w: World, e: Event)
    ensures Claimable(Step(w, e)) ==>
      || (Claimable(w) && !(e.Claim? && Enabled(w, e)))
      || (Enabled(w, e) && (e.HandBack? || e.PartSold? || e.Replace?))
  {
  }

  lemma StepWithin(w: World, e: Event, bound: nat)
    requires SellersWithin(w, bound) && bound >= 1
    ensures SellersWithin(Step(w, e), if ReplacesUnderHolder(w, e) then bound + 1 else bound)
  {
    hide Holders, Step, Enabled, Claimable, NoHolder, Holds;
    HoldersAfter(w, e);
    ClaimableAfter(w, e);
    if e.Replace? && Enabled(w, e) && NoHolder(w) {
      NobodyIsNoHolder(w);
    }
    if Enabled(w, e) && (e.ReportSold? || e.HandBack? || e.PartSold?) {
      ReleasedByHolder(w, e);
      HolderIsThere(w, e.who);
    }
  }

  lemma ReleasedByHolder(w: World, e: Event)
    requires Enabled(w, e) && (e.ReportSold? || e.HandBack? || e.PartSold?)
    ensures Holds(w, e.who)
  {
  }

  lemma NobodyIsNoHolder(w: World)
    ensures NoHolder(w) <==> |Holders(w)| == 0
  {
    if Holders(w) != {} {
      var i :| i in Holders(w);
      assert Holds(w, i);
    } else {
      assert forall i | Holds(w, i) :: i in Holders(w);
    }
  }

  lemma HolderIsThere(w: World, who: nat)
    requires Holds(w, who)
    ensures |Holders(w) - {who}| == |Holders(w)| - 1
  {
    assert who in Holders(w);
  }

  /** In any run at all, each replacement under a seller lets in at most one more seller. */
  lemma {:induction false} SellersAreBounded(w: World, events: seq<Event>, bound: nat)
    requires SellersWithin(w, bound) && bound >= 1
    ensures SellersWithin(Run(w, events), bound + Intrusions(w, events))
    decreases |events|
  {
    if events != [] {
      StepWithin(w, events[0], bound);
      SellersAreBounded(Step(w, events[0]), events[1..], if ReplacesUnderHolder(w, events[0]) then bound + 1 else bound);
    }
  }

  lemma SellerOutlivesItsPosition(p: PositionData, q: PositionData, es: seq<Event>)
    requires p.state.Confirming? && q.state.Confirming?
    requires es == [Read(7, false), Claim(7), Replace(q), Read(1, true)]
    ensures var w := Run(Start(p), es);
      w.position == Some(q) && Local(w, 7) == Holding(Confirming, false) && Local(w, 1) == HasRead(Confirming, true)
  {
    hide Run;
    RunFour(Start(p), es);
  }

  lemma SecondSellerIsLetIn(w: World, q: PositionData, es: seq<Event>)
    requires w.position == Some(q) && q.state.Confirming?
    requires Local(w, 7) == Holding(Confirming, false) && Local(w, 1) == HasRead(Confirming, true)
    requires es == [Claim(1), HandBack(7, false), Read(7, false), Claim(7)]
    ensures var v := Run(w, es); Holds(v, 1) && Holds(v, 7) && InState(v, Selling)
  {
    hide Run;
    RunFour(w, es);
  }

  /** Once over with nobody selling, a position stays over until it is replaced, and no further sale of it is ever reported. */
  lemma {:induction false} FinishedForever(w: World, events: seq<Event>)
    requires Inv(w) && Finished(w) && forall e | e in events :: !e.Replace?
    ensures Finished(Run(w, events))
    ensures Run(w, events).salesReported == w.salesReported && Run(w, events).timesClosed == w.timesClosed
    decreases |events|
  {
    if events != [] {
      StepKeepsInv(w, events[0]);
      FinishedForever(Step(w, events[0]), events[1..]);
    }
  }

  /**
   * Failure alone is not final: a step takes a failed position back to a live state exactly when a
   * seller hands it back with a state read before the failure, or books a partial sell; otherwise a new
   * position has to take its place.
   */
  lemma FailedIsRevivedOnlyByItsSeller(w: World, e: Event)
    requires Inv(w) && InState(w, Failed)
    ensures (Step(w, e).position.Some? && !InState(Step(w, e), Failed)) <==>
      (Enabled(w, e) && ((e.HandBack? && !Local(w, e.who).previous.Failed?)
                         || (e.PartSold? && 0 < e.sold <= w.position.value.tokenAmount)
                         || e.Replace?))
  {
  }

  // ---- One sequential signal consumer ----

  /** Events of a system whose only executor is the signal loop, selling whole positions. */
  predicate SignalLoopOnly(e: Event)
  {
    match e
    case Read(who, partial) => who == 0 && !partial
    case _ => true
  }

  /** The position is selling only while the consumer is at it, and nothing else sells. */
  ghost predicate SoloInv(w: World)
  {
    var me := Local(w, 0);
    && (forall i | i != 0 :: Local(w, i).Idle?)
    && ((me.HasRead? || me.Holding?) ==> !me.partial && me.previous != Pending && me.previous != Selling)
    && !InState(w, Pending)
    && (InState(w, Selling) ==> me.Holding?)
  }

  lemma OthersStayIdle(w: World, e: Event)
    requires SignalLoopOnly(e) && forall i | i != 0 :: Local(w, i).Idle?
    ensures forall i | i != 0 :: Local(Step(w, e), i).Idle?
  {
    forall i | i != 0
      ensures Local(Step(w, e), i).Idle?
    {
      assert Local(w, i).Idle?;
    }
  }

  lemma StepKeepsSoloInv(w: World, e: Event)
    requires SoloInv(w) && SignalLoopOnly(e)
    ensures SoloInv(Step(w, e))
  {
    OthersStayIdle(w, e);
  }

  /** With the single signal consumer no run leaves a position in `Selling` between signals, whenever entries are replaced. */
  lemma {:induction false} SignalLoopNeverStrands(w: World, events: seq<Event>)
    requires SoloInv(w)
    requires forall i | 0 <= i < |events| :: SignalLoopOnly(events[i])
    ensures SoloInv(Run(w, events))
    decreases |events|
  {
    if events != [] {
      StepKeepsSoloInv(w, events[0]);
      SignalLoopNeverStrands(Step(w, events[0]), events[1..]);
    }
  }

  /** The state that the consumer will put back is a live one. */
  ghost predicate PutsBackLive(w: World)
  {
    var me := Local(w, 0);
    && (me.HasRead? && Terminal(me.previous) ==> w.position.None? || Terminal(w.position.value.state))
    && (me.Holding? ==> Sellable(me.previous))
  }

  /** A new entry takes the place of a finished one of which the consumer still has a copy. */
  predicate ReplacesUnderOldCopy(w: World, e: Event)
  {
    e.Replace? && Enabled(w, e) && Local(w, 0).HasRead? && Terminal(Local(w, 0).previous)
  }

  lemma StepPutsBackLiveIff(w: World, e: Event)
    requires SoloInv(w) && PutsBackLive(w) && SignalLoopOnly(e)
    ensures PutsBackLive(Step(w, e)) <==> !ReplacesUnderOldCopy(w, e)
  {
    assert forall i | Holds(w, i) :: i == 0;
  }

  predicate NoOldCopies(w: World, events: seq<Event>)
    decreases |events|
  {
    events == [] || (!ReplacesUnderOldCopy(w, events[0]) && NoOldCopies(Step(w, events[0]), events[1..]))
  }

  lemma {:induction false} RunPutsBackLive(w: World, events: seq<Event>)
    requires SoloInv(w) && PutsBackLive(w) && NoOldCopies(w, events)
    requires forall i | 0 <= i < |events| :: SignalLoopOnly(events[i])
    ensures SoloInv(Run(w, events)) && PutsBackLive(Run(w, events))
    decreases |events|
  {
    if events != [] {
      StepKeepsSoloInv(w, events[0]);
      StepPutsBackLiveIff(w, events[0]);
      RunPutsBackLive(Step(w, events[0]), events[1..]);
    }
  }

  /** Whenever the consumer's claim succeeds, the state it read before is submitted, confirming or active. */
  lemma SignalLoopFromStart(p: PositionData, events: seq<Event>)
    requires p.state.Confirming? && NoOldCopies(Start(p), events)
    requires forall i | 0 <= i < |events| :: SignalLoopOnly(events[i])
    ensures var w := Run(Start(p), events);
      && (InState(w, Selling) ==> Holds(w, 0))
      && (Holds(w, 0) ==> Sellable(Local(w, 0).previous))
  {
    RunPutsBackLive(Start(p), events);
  }

  /** With an old copy at hand the consumer claims the new position and then buries it unsold. */
  lemma OldCopyBuriesNewPosition(p: PositionData, q: PositionData)
    requires p.state.Confirming? && q.state.Confirming?
    ensures var w := Run(Start(p), [BuyFailed, Read(0, false), Replace(q), Claim(0), HandBack(0, false)]);
      InState(w, Failed) && w.salesReported == 0 && NoHolder(w)
  {
    hide Run;
    var first, last := [BuyFailed, Read(0, false), Replace(q), Claim(0)], [HandBack(0, false)];
    RunFour(Start(p), first);
    RunAppend(Start(p), first, last);
    RunOne(Run(Start(p), first), HandBack(0, false));
    assert first + last == [BuyFailed, Read(0, false), Replace(q), Claim(0), HandBack(0, false)];
    assert forall i :: !Holds(Run(Start(p), first + last), i);
  }

  // ---- Several executors can strand a position ----

  /** `Selling` with no seller: the state in which neither a sell nor the reaper will ever pick the position up. */
  ghost predicate Stranded(w: World)
  {
    InState(w, Selling) && NoHolder(w)
  }

  /** The steps that leave a position selling with no seller. */
  predicate Strands(w: World, e: Event)
  {
    && Enabled(w, e) && w.position.Some?
    && ((e.HandBack? && Local(w, e.who).previous.Selling?)
        || (e.PartSold? && InState(w, Selling) && !(0 < e.sold <= w.position.value.tokenAmount)))
  }

  lemma ReleaseStrandsIff(w: World, e: Event)
    requires Inv(w) && !Stranded(w) && (e.HandBack? || e.PartSold?)
    ensures Stranded(Step(w, e)) <==> Strands(w, e)
  {
    if Enabled(w, e) {
      assert Holds(w, e.who);
      assert forall i :: Holds(Step(w, e), i) ==> Holds(w, i);
      assert NoHolder(Step(w, e));
    }
  }

  lemma OtherStepsDoNotStrand(w: World, e: Event)
    requires Inv(w) && !Stranded(w) && !e.HandBack? && !e.PartSold?
    ensures !Stranded(Step(w, e))
  {
    var v := Step(w, e);
    if e.Claim? && Enabled(w, e) {
      assert Holds(v, e.who) || v.position == w.position;
    }
    if InState(w, Selling) && InState(v, Selling) {
      var i :| Holds(w, i);
      assert Holds(v, i);
    }
  }

  /** A position becomes stranded exactly by a hand-back of a state read during another sell, or by a refused partial booking. */
  lemma StrandedExactlyBy(w: World, e: Event)
    requires Inv(w) && !Stranded(w)
    ensures Stranded(Step(w, e)) <==> Strands(w, e)
  {
    hide Step, Inv, Stranded, Enabled;
    if e.HandBack? || e.PartSold? {
      ReleaseStrandsIff(w, e);
    } else {
      OtherStepsDoNotStrand(w, e);
    }
  }

  /** A stranded position is lost to selling: it stays stranded until some actor fails or replaces it, and no sale is ever reported. */
  lemma {:induction false} StrandedIsNeverSold(w: World, events: seq<Event>)
    requires Inv(w) && Stranded(w) && forall e | e in events :: !e.Replace?
    ensures Stranded(Run(w, events)) || Finished(Run(w, events))
    ensures Run(w, events).salesReported == w.salesReported
    decreases |events|
  {
    if events != [] {
      var v := Step(w, events[0]);
      StepKeepsInv(w, events[0]);
      forall i
        ensures !Holds(v, i)
      {
        assert !Holds(w, i);
      }
      if InState(v, Selling) {
        StrandedIsNeverSold(v, events[1..]);
      } else {
        FinishedForever(v, events[1..]);
      }
    }
  }

  /** The second executor reads `Selling` while the first one sells, and later puts it back. */
  lemma TwoExecutorsStrand(p: PositionData)
    requires p.state.Confirming?
    ensures Stranded(Run(Start(p), [Read(0, false), Claim(0), Read(1, false), HandBack(0, false), Claim(1), HandBack(1, false)]))
  {
    hide Run;
    var first := [Read(0, false), Claim(0), Read(1, false), HandBack(0, false)];
    RunFour(Start(p), first);
    RunAppend(Start(p), first, [Claim(1)]);
    RunOne(Run(Start(p), first), Claim(1));
    RunAppend(Start(p), first + [Claim(1)], [HandBack(1, false)]);
    RunOne(Run(Start(p), first + [Claim(1)]), HandBack(1, false));
    assert first + [Claim(1)] + [HandBack(1, false)]
      == [Read(0, false), Claim(0), Read(1, false), HandBack(0, false), Claim(1), HandBack(1, false)];
    assert forall i :: !Holds(Run(Start(p), first + [Claim(1)] + [HandBack(1, false)]), i);
  }
}
