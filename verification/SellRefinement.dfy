/** The sequential operations of executor, confirmer and monitor seen as paths of the concurrent position machine. */
module SellRefinement {
  import opened Common
  import opened Positions
  import L = Lifecycle
  import opened Manager
  import opened SellExecutor
  import Confirm
  import Wire

  /** The shared accesses that executor `who` makes for one signal, in order. */
  function EventsOf(who: nat, p: PositionData, reason: SellReason, env: Surroundings): seq<L.Event>
  {
    [L.Read(who, false)] +
    if !env.hasSnapshot then [L.GiveUp(who)]
    else if SellAmount(p, env.balance) == 0 then
      [L.SkipZeroBalance(who)] +
      if Apply(p, SkipZeroBalance).zeroSkips >= MAX_ZERO_BALANCE_SKIPS then [L.FailAfterSkips(who)] else []
    else if !Accepted(p, StartSelling) then [L.Claim(who)]
    else [L.Claim(who), ReleaseEvent(who, Release(Apply(p, StartSelling), reason, p.state, Sends(env.viaJupiter, env.attempts)))]
  }

  function ReleaseEvent(who: nat, release: Operation): L.Event
  {
    if release.Close? then L.ReportSold(who, release.signature) else L.HandBack(who, release.Suspend?)
  }

  lemma RunThree(w: L.World, es: seq<L.Event>)
    requires 2 <= |es| <= 3
    ensures L.Run(w, es) == var v := L.Step(L.Step(w, es[0]), es[1]); if |es| == 3 then L.Step(v, es[2]) else v
  {
    hide L.Step, L.Run;
    var v := L.Step(w, es[0]);
    var u := L.Step(v, es[1]);
    L.RunOne(w, es[0]);
    L.RunAppend(w, [es[0]], [es[1]]);
    L.RunOne(v, es[1]);
    if |es| == 3 {
      assert es == [es[0]] + [es[1]] + [es[2]];
      L.RunAppend(w, [es[0]] + [es[1]], [es[2]]);
      L.RunOne(u, es[2]);
    } else {
      assert es == [es[0]] + [es[1]];
    }
  }

  lemma ReadAndClaim(w: L.World, who: nat)
    requires w.position.Some? && L.Local(w, who).Idle? && Accepted(w.position.value, StartSelling)
    ensures var v := L.Step(L.Step(w, L.Read(who, false)), L.Claim(who));
      && v.position == Some(Apply(w.position.value, StartSelling))
      && L.Local(v, who) == L.Holding(w.position.value.state, false)
      && v.salesReported == w.salesReported
  {
    hide Apply;
  }

  lemma ReleaseClaim(v: L.World, who: nat, previous: PositionState, reason: SellReason, sends: seq<Answer>)
    requires v.position.Some? && L.Local(v, who) == L.Holding(previous, false)
    ensures var release := Release(v.position.value, reason, previous, sends);
      var u := L.Step(v, ReleaseEvent(who, release));
      && u.position == Some(Apply(v.position.value, release))
      && L.Local(u, who).Idle?
      && u.salesReported == v.salesReported + if release.Close? then 1 else 0
  {
    hide Apply;
  }

  /**
   * A signal handled without interference does to the position exactly what its accesses do as steps of
   * the concurrent machine, ends with the executor idle, and reports a sale just when the machine counts one.
   */
  lemma SignalIsAPath(w: L.World, who: nat, reason: SellReason, env: Surroundings)
    requires w.position.Some? && L.Local(w, who).Idle?
    ensures var p := w.position.value;
      var v := L.Run(w, EventsOf(who, p, reason, env));
      && v.position == Some(AfterSellSignal(p, reason, env))
      && L.Local(v, who).Idle?
      && v.salesReported == w.salesReported + if ReportOf(p, env).SellSuccess? then 1 else 0
  {
    var p := w.position.value;
    var es := EventsOf(who, p, reason, env);
    RunThree(w, es);
    if Attempted(p, env) {
      ReadAndClaim(w, who);
      ReleaseClaim(L.Step(L.Step(w, es[0]), es[1]), who, p.state, reason, Sends(env.viaJupiter, env.attempts));
      ReportFollowsRelease(p, reason, env);
    } else {
      UnclaimedPath(w, who, reason, env);
    }
  }

  lemma ReportFollowsRelease(p: PositionData, reason: SellReason, env: Surroundings)
    requires Attempted(p, env)
    ensures ReportOf(p, env).SellSuccess? <==>
      Release(Apply(p, StartSelling), reason, p.state, Sends(env.viaJupiter, env.attempts)).Close?
  {
    hide Apply;
  }

  lemma UnclaimedPath(w: L.World, who: nat, reason: SellReason, env: Surroundings)
    requires w.position.Some? && L.Local(w, who).Idle? && !Attempted(w.position.value, env)
    ensures var p := w.position.value;
      var es := EventsOf(who, p, reason, env);
      var u := L.Step(L.Step(w, es[0]), es[1]);
      var v := if |es| == 3 then L.Step(u, es[2]) else u;
      v.position == Some(AfterSellSignal(p, reason, env)) && L.Local(v, who).Idle? && v.salesReported == w.salesReported
  {
    hide Apply;
  }

  // ---- Manual partial sells ----

  function PartialEventsOf(who: nat, p: PositionData, percent: nat, sent: bool, now: nat): seq<L.Event>
  {
    [L.Read(who, true)] +
    if p.tokenAmount == 0 then [L.GiveUp(who)]
    else if !Accepted(p, StartSelling) then [L.Claim(who)]
    else [L.Claim(who), if sent then L.PartSold(who, PartialAmount(p.tokenAmount, percent), now) else L.HandBack(who, false)]
  }

  /** The same for a partial sell, which never counts as a sale of the position. */
  lemma PartialSellIsAPath(w: L.World, who: nat, percent: nat, sent: bool, now: nat)
    requires w.position.Some? && L.Local(w, who).Idle?
    ensures var p := w.position.value;
      var v := L.Run(w, PartialEventsOf(who, p, percent, sent, now));
      && v.position == Some(AfterPartialSell(p, percent, sent, now))
      && L.Local(v, who).Idle?
      && v.salesReported == w.salesReported && v.timesClosed == w.timesClosed
  {
    hide L.Run, Apply, PartialAmount;
    RunThree(w, PartialEventsOf(who, w.position.value, percent, sent, now));
  }

  // ---- Settling a buy ----

  /** The machine's position is the table's entry. */
  predicate Shows(w: L.World, t: Table, key: PositionKey)
  {
    w.position == if key in t then Some(t[key]) else None
  }

  function SettlingEvent(op: Operation): L.Event
  {
    if op.Activate? then L.BuyConfirmed(op.amount, op.curvePrice, op.at) else L.BuyFailed
  }

  /** What the confirmer does to the table is one step of the machine, whatever the executors are at. */
  lemma ConfirmBuyIsAStep(w: L.World, t: Table, key: PositionKey, v: Confirm.Verdict, preBuy: u64, estimate: u64,
                          openCount: nat, curve: Option<Wire.Curve>, lamports: u64, now: nat)
    requires Shows(w, t, key)
    ensures var op := Confirm.SettledBy(v, preBuy, estimate, openCount, curve, lamports, now);
      var u := L.Step(w, SettlingEvent(op));
      Shows(u, Update(t, key, op), key) && u == w.(position := u.position)
  {
    hide Apply, AssignedAmount, Confirm.EntryPrice;
  }

  /** What late confirmation sets out to do is its two accesses one after the other. */
  lemma FallbackIsAPath(w: L.World, t: Table, key: PositionKey, balance: nat, share: nat, curvePrice: Option<real>, now: nat)
    requires Shows(w, t, key) && key in t && !w.fallbackChecking && (t[key].state.Submitted? || t[key].state.Confirming?)
    ensures var grew := balance > t[key].preBuyBalance;
      var u := L.Run(w, [L.FallbackPick, L.FallbackResolve(grew, share, curvePrice, now)]);
      && Shows(u, Update(t, key, if grew then Activate(share, curvePrice, now) else Fail), key)
      && u == w.(position := u.position)
  {
    hide Apply, L.Run;
    RunThree(w, [L.FallbackPick, L.FallbackResolve(balance > t[key].preBuyBalance, share, curvePrice, now)]);
  }
}
