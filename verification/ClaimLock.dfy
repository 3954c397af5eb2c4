/**
 * The buy claim per (group, mint): one buy at a time, a cooldown after a submitted one, and a reaper
 * that drops stale claims.  Times are milliseconds.
 */
module ClaimLock {
  import opened Common

  const COOLDOWN_MS: nat := 2500
  const STALE_MS: nat := 30000

  datatype Claim = Claim(inFlight: bool, cooldownUntil: Option<nat>, lastTouched: nat)

  type Claims = map<string, Claim>

  predicate CoolingDown(c: Claim, now: nat)
  {
    c.cooldownUntil.Some? && c.cooldownUntil.value > now
  }

  predicate Free(claims: Claims, key: string, now: nat)
  {
    key in claims ==> !claims[key].inFlight && !CoolingDown(claims[key], now)
  }

  /** An attempt always touches the claim, and takes it only when it is free. */
  function AfterTry(claims: Claims, key: string, now: nat): Claims
  {
    claims[key := if Free(claims, key, now) then Claim(true, None, now) else claims[key].(lastTouched := now)]
  }

  function AfterFinish(claims: Claims, key: string, submitted: bool, now: nat): Claims
  {
    if !submitted then claims - {key}
    else if key in claims then claims[key := Claim(false, Some(now + COOLDOWN_MS), now)]
    else claims
  }

  /** Whether the reaper keeps a claim. */
  predicate Keep(c: Claim, now: nat)
  {
    if c.inFlight then Elapsed(now, c.lastTouched) < STALE_MS else CoolingDown(c, now)
  }

  function AfterReap(claims: Claims, now: nat): Claims
  {
    map k | k in claims && Keep(claims[k], now) :: claims[k]
  }

  class GroupMintDedup {
    var claims: Claims

    constructor ()
      ensures claims == map[]
    {
      claims := map[];
    }

    method TryStart(key: string, now: nat) returns (ok: bool)
      modifies this
      ensures ok == Free(old(claims), key, now) && claims == AfterTry(old(claims), key, now)
    {
      if key in claims {
        var claim := claims[key];
        var coolingDown := claim.cooldownUntil.Some? && claim.cooldownUntil.value > now;
        claim := claim.(lastTouched := now);
        claims := claims[key := claim];
        if claim.inFlight || coolingDown {
          return false;
        }
        claims := claims[key := claim.(inFlight := true, cooldownUntil := None)];
        return true;
      } else {
        claims := claims[key := Claim(true, None, now)];
        return true;
      }
    }

    method Finish(key: string, submitted: bool, now: nat)
      modifies this
      ensures claims == AfterFinish(old(claims), key, submitted, now)
    {
      if submitted {
        if key in claims {
          claims := claims[key := claims[key].(inFlight := false, cooldownUntil := Some(now + COOLDOWN_MS), lastTouched := now)];
        }
      } else {
        claims := claims - {key};
      }
    }

    method Reap(now: nat)
      modifies this
      ensures claims == AfterReap(old(claims), now)
    {
      claims := map k | k in claims && Keep(claims[k], now) :: claims[k];
    }
  }

  // ---- Runs: executions of buys around the lock, and reaper ticks at arbitrary times ----

  datatype Event =
    | Start(id: nat, key: string, at: nat)
    | Finish(id: nat, submitted: bool, at: nat)
    | Tick(at: nat)

  datatype Execution = Execution(key: string, startedAt: nat)

  /** `submittedAt` remembers, per key, when the last submitted execution finished. */
  datatype System = System(claims: Claims, running: map<nat, Execution>, submittedAt: map<string, nat>, now: nat)

  const INITIAL: System := System(map[], map[], map[], 0)

  /** The attempt gets the lock. */
  predicate Starts(s: System, e: Event)
  {
    e.Start? && Free(s.claims, e.key, e.at)
  }

  function Step(s: System, e: Event): System
    requires e.Finish? ==> e.id in s.running
  {
    match e
    case Start(id, key, at) =>
      System(AfterTry(s.claims, key, at),
             if Starts(s, e) then s.running[id := Execution(key, at)] else s.running, s.submittedAt, at)
    case Finish(id, submitted, at) =>
      var key := s.running[id].key;
      System(AfterFinish(s.claims, key, submitted, at), s.running - {id},
             if submitted then s.submittedAt[key := at] else s.submittedAt, at)
    case Tick(at) => System(AfterReap(s.claims, at), s.running, s.submittedAt, at)
  }

  /** Time moves forward, and executions have their own ids. */
  predicate Ordered(s: System, e: Event)
  {
    && s.now <= e.at
    && (e.Start? ==> e.id !in s.running)
    && (e.Finish? ==> e.id in s.running)
  }

  /** The reaper comes by when nothing has touched the claim of a running execution for the stale limit. */
  predicate ReapsRunning(s: System, e: Event)
  {
    e.Tick? && exists id | id in s.running ::
      s.running[id].key in s.claims && Elapsed(e.at, s.claims[s.running[id].key].lastTouched) >= STALE_MS
  }

  /** Runs in which the reaper never does. */
  predicate Valid(s: System, events: seq<Event>)
    decreases |events|
  {
    events == [] || (Ordered(s, events[0]) && !ReapsRunning(s, events[0]) && Valid(Step(s, events[0]), events[1..]))
  }

  function Run(s: System, events: seq<Event>): System
    requires Valid(s, events)
    decreases |events|
  {
    if events == [] then s else Run(Step(s, events[0]), events[1..])
  }

  ghost predicate RunningAreClaimed(s: System)
  {
    forall id | id in s.running ::
      && s.running[id].startedAt <= s.now
      && s.running[id].key in s.claims
      && s.claims[s.running[id].key].inFlight
      && s.running[id].startedAt <= s.claims[s.running[id].key].lastTouched
  }

  ghost predicate ClaimsAreRunning(s: System)
  {
    forall k | k in s.claims && s.claims[k].inFlight :: exists id :: id in s.running && s.running[id].key == k
  }

  ghost predicate OnePerKey(s: System)
  {
    forall i, j | i in s.running && j in s.running && s.running[i].key == s.running[j].key :: i == j
  }

  ghost predicate CooldownsKept(s: System)
  {
    forall k | k in s.submittedAt && s.now < s.submittedAt[k] + COOLDOWN_MS ::
      k in s.claims && !s.claims[k].inFlight && s.claims[k].cooldownUntil == Some(s.submittedAt[k] + COOLDOWN_MS)
  }

  /** The lock tells the truth about the running executions, and remembers every cooldown that is not over. */
  ghost predicate Inv(s: System)
  {
    RunningAreClaimed(s) && ClaimsAreRunning(s) && OnePerKey(s) && CooldownsKept(s)
  }

  /** What the invariant says at the moment a key is found free. */
  lemma FreeMeansIdle(s: System, key: string, at: nat)
    requires Inv(s) && s.now <= at && Free(s.claims, key, at)
    ensures forall id | id in s.running :: s.running[id].key != key
    ensures key in s.submittedAt ==> s.submittedAt[key] + COOLDOWN_MS <= at
  {
  }

  lemma TakenStartKeepsInv(s: System, e: Event)
    requires Inv(s) && Ordered(s, e) && Starts(s, e)
    ensures Inv(Step(s, e))
  {
    FreeMeansIdle(s, e.key, e.at);
    var t := Step(s, e);
    forall k | k in t.claims && t.claims[k].inFlight
      ensures exists id :: id in t.running && t.running[id].key == k
    {
      if k == e.key {
        assert e.id in t.running;
      } else {
        var id :| id in s.running && s.running[id].key == k;
        assert id in t.running;
      }
    }
  }

  lemma RefusedStartKeepsInv(s: System, e: Event)
    requires Inv(s) && Ordered(s, e) && e.Start? && !Starts(s, e)
    ensures Inv(Step(s, e))
  {
  }

  lemma FinishKeepsClaims(s: System, e: Event)
    requires Inv(s) && Ordered(s, e) && e.Finish?
    ensures RunningAreClaimed(Step(s, e)) && OnePerKey(Step(s, e))
  {
    hide CooldownsKept, ClaimsAreRunning;
  }

  lemma FinishKeepsInv(s: System, e: Event)
    requires Inv(s) && Ordered(s, e) && e.Finish?
    ensures Inv(Step(s, e))
  {
    var key := s.running[e.id].key;
    assert key in s.claims && s.claims[key].inFlight;
    hide RunningAreClaimed, OnePerKey;
    FinishKeepsClaims(s, e);
    var t := Step(s, e);
    forall k | k in t.claims && t.claims[k].inFlight
      ensures exists id :: id in t.running && t.running[id].key == k
    {
      var id :| id in s.running && s.running[id].key == k;
      assert id in t.running;
    }
  }

  lemma TickKeepsInvIff(s: System, e: Event)
    requires Inv(s) && Ordered(s, e) && e.Tick?
    ensures Inv(Step(s, e)) <==> !ReapsRunning(s, e)
    ensures !ReapsRunning(s, e) ==> forall k | k in s.claims && s.claims[k].inFlight :: k in Step(s, e).claims
  {
    if ReapsRunning(s, e) {
      var id :| id in s.running && Elapsed(e.at, s.claims[s.running[id].key].lastTouched) >= STALE_MS;
      assert s.running[id].key !in Step(s, e).claims;
    } else {
      forall k | k in s.claims && s.claims[k].inFlight
        ensures Keep(s.claims[k], e.at)
      {
        var id :| id in s.running && s.running[id].key == k;
        assert Elapsed(e.at, s.claims[s.running[id].key].lastTouched) < STALE_MS;
      }
    }
  }

  /** Lock and executions stay in agreement, however long the executions last, except exactly when the reaper takes a running one's claim. */
  lemma StepKeepsInvIff(s: System, e: Event)
    requires Inv(s) && Ordered(s, e)
    ensures Inv(Step(s, e)) <==> !ReapsRunning(s, e)
  {
    match e
    case Start(_, _, _) =>
      if Starts(s, e) {
        TakenStartKeepsInv(s, e);
      } else {
        RefusedStartKeepsInv(s, e);
      }
    case Finish(_, _, _) => FinishKeepsInv(s, e);
    case Tick(_) => TickKeepsInvIff(s, e);
  }

  lemma {:induction false} RunKeepsInv(s: System, events: seq<Event>)
    requires Inv(s) && Valid(s, events)
    ensures Inv(Run(s, events))
    decreases |events|
  {
    if events != [] {
      StepKeepsInvIff(s, events[0]);
      RunKeepsInv(Step(s, events[0]), events[1..]);
    }
  }

  /** A claim that is not running is a cooldown, and it ends when the last submitted execution says. */
  ghost predicate CooldownsMeant(s: System)
  {
    forall k | k in s.claims && !s.claims[k].inFlight ::
      k in s.submittedAt && s.claims[k].cooldownUntil == Some(s.submittedAt[k] + COOLDOWN_MS)
  }

  lemma StepKeepsMeant(s: System, e: Event)
    requires Inv(s) && CooldownsMeant(s) && Ordered(s, e)
    ensures CooldownsMeant(Step(s, e))
  {
    hide ClaimsAreRunning, OnePerKey, CooldownsKept;
  }

  lemma {:induction false} RunKeepsMeant(s: System, events: seq<Event>)
    requires Inv(s) && CooldownsMeant(s) && Valid(s, events)
    ensures Inv(Run(s, events)) && CooldownsMeant(Run(s, events))
    decreases |events|
  {
    hide Inv, CooldownsMeant;
    if events != [] {
      StepKeepsInvIff(s, events[0]);
      StepKeepsMeant(s, events[0]);
      RunKeepsMeant(Step(s, events[0]), events[1..]);
    }
  }

  /**
   * After any such run an attempt gets the lock exactly if no execution of its key is running and the last submitted
   * one, if there was any, ended at least two and a half seconds ago.
   */
  lemma StartsIff(events: seq<Event>, e: Event)
    requires Valid(INITIAL, events) && Ordered(Run(INITIAL, events), e) && e.Start?
    ensures var s := Run(INITIAL, events);
      Starts(s, e) <==>
        && (forall id | id in s.running :: s.running[id].key != e.key)
        && (e.key in s.submittedAt ==> s.submittedAt[e.key] + 2500 <= e.at)
  {
    RunKeepsMeant(INITIAL, events);
    var s := Run(INITIAL, events);
    if Starts(s, e) {
      FreeMeansIdle(s, e.key, e.at);
    }
  }

  /**
   * After any run in which the reaper takes no running execution's claim, at most one execution per key is running,
   * and an attempt succeeds only when none is and the cooldown of the last submitted one is over.
   */
  lemma OneBuyAtATime(events: seq<Event>, e: Event)
    requires Valid(INITIAL, events) && Ordered(Run(INITIAL, events), e) && Starts(Run(INITIAL, events), e)
    ensures var s := Run(INITIAL, events);
      && (forall i, j | i in s.running && j in s.running && s.running[i].key == s.running[j].key :: i == j)
      && (forall id | id in s.running :: s.running[id].key != e.key)
      && (e.key in s.submittedAt ==> s.submittedAt[e.key] + 2500 <= e.at)
  {
    RunKeepsInv(INITIAL, events);
    FreeMeansIdle(Run(INITIAL, events), e.key, e.at);
  }

  /** And a pass of the reaper leaves a claim exactly for the keys that are running or whose cooldown is not over. */
  lemma LeftByReaperIff(events: seq<Event>, at: nat, key: string)
    requires Valid(INITIAL, events) && Ordered(Run(INITIAL, events), Tick(at)) && !ReapsRunning(Run(INITIAL, events), Tick(at))
    ensures var s := Run(INITIAL, events);
      key in Step(s, Tick(at)).claims <==>
        || (exists id :: id in s.running && s.running[id].key == key)
        || (key in s.submittedAt && at < s.submittedAt[key] + 2500)
  {
    RunKeepsMeant(INITIAL, events);
    var s := Run(INITIAL, events);
    TickKeepsInvIff(s, Tick(at));
  }

  /** No execution is still running after the stale limit. */
  predicate Timely(s: System, e: Event)
  {
    Ordered(s, e) && forall id | id in s.running :: e.at < s.running[id].startedAt + 30000
  }

  predicate AllTimely(s: System, events: seq<Event>)
    decreases |events|
  {
    events == [] || (Timely(s, events[0]) && AllTimely(Step(s, events[0]), events[1..]))
  }

  /** In particular when every execution ends within the stale limit. */
  lemma {:induction false} TimelyRunsAreValid(s: System, events: seq<Event>)
    requires Inv(s) && AllTimely(s, events)
    ensures Valid(s, events)
    decreases |events|
  {
    if events != [] {
      var e := events[0];
      forall id | id in s.running
        ensures Elapsed(e.at, s.claims[s.running[id].key].lastTouched) < STALE_MS
      {
        assert s.running[id].startedAt <= s.claims[s.running[id].key].lastTouched;
      }
      StepKeepsInvIff(s, e);
      TimelyRunsAreValid(Step(s, e), events[1..]);
    }
  }

  /** Once the reaper has taken a running execution's claim, the next attempt for the key gets in beside it. */
  lemma ReapedClaimLetsSecondIn(s: System, id: nat, at: nat, other: nat)
    requires Inv(s) && s.now <= at && id in s.running && other !in s.running
    requires at >= s.claims[s.running[id].key].lastTouched + 30000
    ensures var t := Step(s, Tick(at));
      id in t.running && Starts(t, Start(other, s.running[id].key, at))
  {
    assert s.claims[s.running[id].key].inFlight;
  }

  /** It is not the length of the execution that counts: a refused attempt keeps a claim past its thirty seconds. */
  lemma RefusedAttemptKeepsClaim(key: string)
    ensures var s := Step(Step(Step(INITIAL, Start(0, key, 0)), Start(1, key, 20000)), Tick(40000));
      0 in s.running && key in s.claims && s.claims[key].inFlight && !Starts(s, Start(2, key, 40000))
  {
  }

  // ---- The reaper cannot be observed ----

  /** Whether each attempt of the run got the lock, in order. */
  function Outcomes(s: System, events: seq<Event>): seq<bool>
    requires Valid(s, events)
    decreases |events|
  {
    if events == [] then []
    else (if events[0].Start? then [Starts(s, events[0])] else []) + Outcomes(Step(s, events[0]), events[1..])
  }

  function WithoutTicks(events: seq<Event>): seq<Event>
  {
    if events == [] then []
    else (if events[0].Tick? then [] else [events[0]]) + WithoutTicks(events[1..])
  }

  /** `t` is `s` as it would be had the reaper never run: it may still hold claims that are free. */
  ghost predicate SameButFree(s: System, t: System)
  {
    && s.running == t.running && s.submittedAt == t.submittedAt && t.now <= s.now
    && (forall k | k in s.claims :: k in t.claims && t.claims[k] == s.claims[k])
    && (forall k | k in t.claims && k !in s.claims :: Free(t.claims, k, s.now))
  }

  lemma StepKeepsSame(s: System, t: System, e: Event)
    requires Inv(s) && SameButFree(s, t) && Ordered(s, e) && !e.Tick?
    ensures Ordered(t, e) && SameButFree(Step(s, e), Step(t, e))
    ensures Starts(s, e) <==> Starts(t, e)
  {
    if e.Start? && e.key in t.claims && e.key !in s.claims {
      assert Free(t.claims, e.key, s.now);
      assert Free(t.claims, e.key, e.at);
    }
    forall k | k in Step(t, e).claims && k !in Step(s, e).claims
      ensures Free(Step(t, e).claims, k, e.at)
    {
      assert k in t.claims && k !in s.claims;
      assert Free(t.claims, k, s.now);
    }
  }

  lemma TickKeepsSame(s: System, t: System, e: Event)
    requires Inv(s) && SameButFree(s, t) && Ordered(s, e) && e.Tick? && !ReapsRunning(s, e)
    ensures SameButFree(Step(s, e), t)
  {
    TickKeepsInvIff(s, e);
    forall k | k in t.claims && k !in Step(s, e).claims
      ensures Free(t.claims, k, e.at)
    {
      if k in s.claims {
        assert !Keep(s.claims[k], e.at);
      } else {
        assert Free(t.claims, k, s.now);
      }
    }
  }

  lemma {:induction false} ReaperIsUnobservableFrom(s: System, t: System, events: seq<Event>)
    requires Inv(s) && SameButFree(s, t) && Valid(s, events)
    ensures Valid(t, WithoutTicks(events)) && Outcomes(t, WithoutTicks(events)) == Outcomes(s, events)
    decreases |events|
  {
    if events != [] {
      var e := events[0];
      StepKeepsInvIff(s, e);
      if e.Tick? {
        TickKeepsSame(s, t, e);
        ReaperIsUnobservableFrom(Step(s, e), t, events[1..]);
        assert WithoutTicks(events) == WithoutTicks(events[1..]);
      } else {
        StepKeepsSame(s, t, e);
        ReaperIsUnobservableFrom(Step(s, e), Step(t, e), events[1..]);
        assert WithoutTicks(events)[1..] == WithoutTicks(events[1..]);
      }
    }
  }

  /** Removing all reaper ticks from a run changes the outcome of no attempt. */
  lemma ReaperIsUnobservable(events: seq<Event>)
    requires Valid(INITIAL, events)
    ensures Valid(INITIAL, WithoutTicks(events)) && Outcomes(INITIAL, WithoutTicks(events)) == Outcomes(INITIAL, events)
  {
    ReaperIsUnobservableFrom(INITIAL, INITIAL, events);
  }
}
