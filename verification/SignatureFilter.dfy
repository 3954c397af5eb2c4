/** Deduplication of trade events by transaction signature, alone and in front of the consensus engine. */
module SignatureFilter {
  import opened Common
  import opened Consensus
  import opened ConsensusRuns

  const SIGNATURE_TTL_MS: nat := 10000

  datatype SignatureSeen = SignatureSeen(preSeen: bool, landedSeen: bool, lastSeen: nat)

  type SeenMap = map<string, SignatureSeen>

  function SeenOf(cache: SeenMap, signature: string): SignatureSeen
  {
    if signature in cache then cache[signature] else SignatureSeen(false, false, 0)
  }

  /** Whether a copy of a transaction is dropped, and the cache after it was looked up. */
  function ShouldSkip(cache: SeenMap, signature: string, preExecution: bool): bool
  {
    var seen := SeenOf(cache, signature);
    seen.landedSeen || (preExecution && seen.preSeen)
  }

  function Touched(cache: SeenMap, signature: string, preExecution: bool, now: nat): SeenMap
  {
    var seen := SeenOf(cache, signature);
    cache[signature := SignatureSeen(seen.preSeen || (preExecution && !seen.landedSeen), seen.landedSeen || !preExecution, now)]
  }

  function Purged(cache: SeenMap, now: nat): SeenMap
  {
    map k | k in cache && Elapsed(now, cache[k].lastSeen) < SIGNATURE_TTL_MS :: cache[k]
  }

  class SignatureCache {
    var seen: SeenMap

    constructor ()
      ensures seen == map[]
    {
      seen := map[];
    }

    method ShouldSkipSignature(signature: string, preExecution: bool, now: nat) returns (skip: bool)
      modifies this
      ensures skip == ShouldSkip(old(seen), signature, preExecution)
      ensures seen == Touched(old(seen), signature, preExecution, now)
    {
      var entry := if signature in seen then seen[signature] else SignatureSeen(false, false, now);
      entry := entry.(lastSeen := now);
      if preExecution {
        skip := entry.preSeen || entry.landedSeen;
        if !skip {
          entry := entry.(preSeen := true);
        }
      } else {
        skip := entry.landedSeen;
        if !skip {
          entry := entry.(landedSeen := true);
        }
      }
      seen := seen[signature := entry];
    }

    method Purge(now: nat)
      modifies this
      ensures seen == Purged(old(seen), now)
    {
      seen := map k | k in seen && Elapsed(now, seen[k].lastSeen) < SIGNATURE_TTL_MS :: seen[k];
    }
  }

  // ---- Admission of the copies of one signature ----

  datatype Event =
    | Copy(signal: BuySignal, failed: bool, toEngine: bool, now: nat)
    | PurgeSignatures(now: nat)
    | CleanUpVotes(now: nat)

  function StepCache(cache: SeenMap, e: Event): SeenMap
  {
    match e
    case Copy(s, _, _, now) => Touched(cache, s.signature, s.preExecution, now)
    case PurgeSignatures(now) => Purged(cache, now)
    case CleanUpVotes(_) => cache
  }

  predicate Admitted(cache: SeenMap, e: Event)
  {
    e.Copy? && !ShouldSkip(cache, e.signal.signature, e.signal.preExecution)
  }

  /** The cache entry of the signature is never purged during the events. */
  predicate Survives(cache: SeenMap, signature: string, events: seq<Event>)
    decreases |events|
  {
    events == [] ||
    ((signature in cache ==> signature in StepCache(cache, events[0]))
     && Survives(StepCache(cache, events[0]), signature, events[1..]))
  }

  datatype Kind = Pre | Landed

  /** The admitted copies of the signature, in order. */
  function AdmittedKinds(cache: SeenMap, signature: string, events: seq<Event>): seq<Kind>
    decreases |events|
  {
    if events == [] then [] else
    var rest := AdmittedKinds(StepCache(cache, events[0]), signature, events[1..]);
    if Admitted(cache, events[0]) && events[0].signal.signature == signature
    then [if events[0].signal.preExecution then Pre else Landed] + rest
    else rest
  }

  /**
   * While its cache entry survives, a signature gets through at most twice: a pre-execution copy and
   * then a landed one, or a landed one alone.
   */
  lemma {:induction false} AdmissionOrder(cache: SeenMap, signature: string, events: seq<Event>)
    requires Survives(cache, signature, events)
    ensures var kinds, seen := AdmittedKinds(cache, signature, events), SeenOf(cache, signature);
      if seen.landedSeen then kinds == []
      else if seen.preSeen then kinds <= [Landed]
      else kinds <= [Pre, Landed] || kinds == [Landed]
    decreases |events|
  {
    if events != [] {
      AdmissionOrder(StepCache(cache, events[0]), signature, events[1..]);
    }
  }

  // ---- In front of the consensus engine ----

  datatype Pipeline = Pipeline(cache: SeenMap, entry: Option<TokenSignals>)

  /** A copy that gets through votes for its wallet, or withdraws its vote if the transaction failed. */
  function Step(p: Pipeline, e: Event): Pipeline
  {
    var cache := StepCache(p.cache, e);
    match e
    case Copy(s, failed, toEngine, now) =>
      if !Admitted(p.cache, e) || !toEngine then Pipeline(cache, p.entry)
      else if failed then Pipeline(cache, ConsensusRuns.Step(p.entry, Withdraw(s.wallet, s.signature)))
      else Pipeline(cache, ConsensusRuns.Step(p.entry, Vote(s, now)))
    case PurgeSignatures(_) => Pipeline(cache, p.entry)
    case CleanUpVotes(now) => Pipeline(cache, ConsensusRuns.Step(p.entry, CleanUp(now)))
  }

  const START: Pipeline := Pipeline(map[], None)

  function After(events: seq<Event>): Pipeline
    decreases |events|
  {
    if events == [] then START else Step(After(events[..|events| - 1]), events[|events| - 1])
  }

  // ---- What the filter remembers, in terms of times ----

  predicate IsCopy(e: Event, signature: string)
  {
    e.Copy? && e.signal.signature == signature
  }

  /** When the last copy of the transaction came. */
  function LastCopyAt(events: seq<Event>, signature: string): Option<nat>
    decreases |events|
  {
    if events == [] then None else
    var last := events[|events| - 1];
    if IsCopy(last, signature) then Some(last.now) else LastCopyAt(events[..|events| - 1], signature)
  }

  /** A purge at least ten seconds after the last copy. */
  predicate Forgets(events: seq<Event>, i: nat, signature: string)
    requires i < |events|
  {
    var last := LastCopyAt(events[..i], signature);
    events[i].PurgeSignatures? && last.Some? && Elapsed(events[i].now, last.value) >= 10000
  }

  /** No purge has forgotten the transaction since. */
  predicate Kept(events: seq<Event>, j: nat, signature: string)
  {
    forall i | j < i < |events| :: !Forgets(events, i, signature)
  }

  predicate RemembersAt(events: seq<Event>, signature: string, landedOnly: bool, j: nat)
    requires j < |events|
  {
    IsCopy(events[j], signature) && (landedOnly ==> !events[j].signal.preExecution) && Kept(events, j, signature)
  }

  /** A copy, or a landed copy, has come since the transaction was last forgotten. */
  predicate Remembers(events: seq<Event>, signature: string, landedOnly: bool)
  {
    exists j | 0 <= j < |events| :: RemembersAt(events, signature, landedOnly, j)
  }

  lemma ForgetsInPrefix(events: seq<Event>, n: nat, i: nat, signature: string)
    requires i < n <= |events|
    ensures Forgets(events[..n], i, signature) <==> Forgets(events, i, signature)
  {
    assert events[..n][..i] == events[..i];
  }

  lemma RemembersAtLonger(events: seq<Event>, signature: string, landedOnly: bool, j: nat)
    requires j < |events| - 1
    ensures RemembersAt(events, signature, landedOnly, j) <==>
      RemembersAt(events[..|events| - 1], signature, landedOnly, j) && !Forgets(events, |events| - 1, signature)
  {
    hide Forgets;
    var n := |events| - 1;
    forall i | j < i < n ensures Forgets(events[..n], i, signature) <==> Forgets(events, i, signature) {
      ForgetsInPrefix(events, n, i, signature);
    }
  }

  lemma RemembersLonger(events: seq<Event>, signature: string, landedOnly: bool)
    requires events != []
    ensures var init, last := events[..|events| - 1], events[|events| - 1];
      Remembers(events, signature, landedOnly) <==>
        || (IsCopy(last, signature) && (landedOnly ==> !last.signal.preExecution))
        || (Remembers(init, signature, landedOnly) && !Forgets(events, |events| - 1, signature))
  {
    var init, n := events[..|events| - 1], |events| - 1;
    forall j: nat | j < n
      ensures RemembersAt(events, signature, landedOnly, j) <==>
        RemembersAt(init, signature, landedOnly, j) && !Forgets(events, n, signature)
    {
      RemembersAtLonger(events, signature, landedOnly, j);
    }
    assert RemembersAt(events, signature, landedOnly, n) <==>
      IsCopy(events[n], signature) && (landedOnly ==> !events[n].signal.preExecution);
    hide RemembersAt, Forgets;
    if Remembers(init, signature, landedOnly) {
      var j :| 0 <= j < n && RemembersAt(init, signature, landedOnly, j);
      assert RemembersAt(events, signature, landedOnly, j) <==> !Forgets(events, n, signature);
    }
  }

  /** What one event does to the cache entry of a signature. */
  lemma SeenAfter(cache: SeenMap, e: Event, signature: string)
    ensures var after := StepCache(cache, e);
      var seen, seen' := SeenOf(cache, signature), SeenOf(after, signature);
      if IsCopy(e, signature) then
        && signature in after && seen'.lastSeen == e.now && (seen'.preSeen || seen'.landedSeen)
        && (seen'.landedSeen <==> seen.landedSeen || !e.signal.preExecution)
      else if e.PurgeSignatures? && signature in cache && Elapsed(e.now, seen.lastSeen) >= SIGNATURE_TTL_MS then signature !in after
      else (signature in after <==> signature in cache) && (signature in cache ==> seen' == seen)
  {
  }

  /** The cache says exactly which copies are remembered. */
  lemma {:induction false} CacheIff(events: seq<Event>, signature: string)
    ensures var cache := After(events).cache;
      var seen := SeenOf(cache, signature);
      && (signature in cache <==> Remembers(events, signature, false))
      && (seen.landedSeen <==> Remembers(events, signature, true))
      && (signature in cache ==> (seen.preSeen || seen.landedSeen) && LastCopyAt(events, signature) == Some(seen.lastSeen))
    decreases |events|
  {
    if events != [] {
      var n := |events| - 1;
      hide Remembers, StepCache, Step;
      CacheIff(events[..n], signature);
      RemembersLonger(events, signature, false);
      RemembersLonger(events, signature, true);
      LandedIsRemembered(events[..n], signature);
      CacheStep(After(events[..n]), events[n]);
      SeenAfter(After(events[..n]).cache, events[n], signature);
    }
  }

  lemma LandedIsRemembered(events: seq<Event>, signature: string)
    ensures Remembers(events, signature, true) ==> Remembers(events, signature, false)
  {
    if Remembers(events, signature, true) {
      var j :| 0 <= j < |events| && RemembersAt(events, signature, true, j);
      assert RemembersAt(events, signature, false, j);
    }
  }

  lemma CacheStep(p: Pipeline, e: Event)
    ensures Step(p, e).cache == StepCache(p.cache, e)
  {
  }

  /** A copy is let through exactly if no copy is remembered, or it is landed and no landed one is. */
  lemma AdmittedIff(events: seq<Event>, k: nat)
    requires k < |events| && events[k].Copy?
    ensures Admitted(After(events[..k]).cache, events[k]) <==>
      !Remembers(events[..k], events[k].signal.signature, !events[k].signal.preExecution)
  {
    CacheIff(events[..k], events[k].signal.signature);
  }

  // ---- When a withdrawn vote returns ----

  ghost predicate Absent(p: Pipeline, wallet: Pubkey, signature: string)
  {
    p.entry.Some? ==> forall s | s in p.entry.value.signals :: !(s.wallet == wallet && s.signature == signature)
  }

  /** A copy that would vote for the wallet. */
  predicate VoteCopy(e: Event, wallet: Pubkey, signature: string)
  {
    IsCopy(e, signature) && e.signal.wallet == wallet && e.toEngine && !e.failed
  }

  /** The engine would take the vote into its list. */
  predicate Accepts(p: Pipeline, e: Event)
    requires e.Copy?
  {
    Taken(EntryFor(p.entry, e.signal), e.signal, e.now)
  }

  lemma SubmitAddsIff(e: TokenSignals, s: BuySignal, now: nat)
    ensures forall x | x in Submit(e, s, now).0.signals :: (x == s && Taken(e, s, now)) || x in e.signals
    ensures Taken(e, s, now) ==> s in Submit(e, s, now).0.signals
  {
    var live := RetainFresh(e.signals, now, e.timeout);
    RetainFreshIsSublist(e.signals, now, e.timeout);
    SublistFacts(live, e.signals);
    if Taken(e, s, now) {
      var k := IndexOf(live, s.wallet);
      assert Absorb(e, s, now)[k] == s;
    }
  }

  /** One event brings an absent vote into the entry exactly if it is a copy of it that is let through and accepted. */
  lemma StepBringsVoteIff(p: Pipeline, e: Event, wallet: Pubkey, signature: string)
    requires Absent(p, wallet, signature)
    ensures !Absent(Step(p, e), wallet, signature) <==>
      VoteCopy(e, wallet, signature) && Admitted(p.cache, e) && Accepts(p, e)
  {
    match e
    case Copy(s, failed, toEngine, now) =>
      if Admitted(p.cache, e) && toEngine {
        if failed && p.entry.Some? {
          WithoutSignalIsSublist(p.entry.value.signals, s.wallet, s.signature);
          SublistFacts(WithoutSignal(p.entry.value.signals, s.wallet, s.signature), p.entry.value.signals);
        } else if !failed {
          SubmitAddsIff(EntryFor(p.entry, s), s, now);
        }
      }
    case PurgeSignatures(_) =>
    case CleanUpVotes(now) =>
      if p.entry.Some? {
        RetainFreshIsSublist(p.entry.value.signals, now, p.entry.value.timeout);
        SublistFacts(RetainFresh(p.entry.value.signals, now, p.entry.value.timeout), p.entry.value.signals);
      }
  }

  /** A landed copy that reports the wallet's transaction as failed and gets through to the engine. */
  predicate WithdrawsAt(events: seq<Event>, f: nat, wallet: Pubkey, signature: string)
    requires f < |events|
  {
    && IsCopy(events[f], signature) && events[f].signal.wallet == wallet && !events[f].signal.preExecution
    && events[f].failed && events[f].toEngine && Admitted(After(events[..f]).cache, events[f])
  }

  /** A copy that votes again: nothing of the transaction that would stop it is remembered, and the engine accepts it. */
  ghost predicate VotesAgainAt(events: seq<Event>, k: nat, wallet: Pubkey, signature: string)
    requires k < |events|
  {
    && VoteCopy(events[k], wallet, signature)
    && !Remembers(events[..k], signature, !events[k].signal.preExecution)
    && Accepts(After(events[..k]), events[k])
  }

  lemma AfterOneMore(events: seq<Event>, n: nat)
    requires n < |events|
    ensures After(events[..n + 1]) == Step(After(events[..n]), events[n])
  {
    assert events[..n + 1][..n] == events[..n];
  }

  lemma AbsentAfterWithdrawal(events: seq<Event>, f: nat, wallet: Pubkey, signature: string)
    requires f < |events| && WithdrawsAt(events, f, wallet, signature)
    ensures Absent(After(events[..f + 1]), wallet, signature)
  {
    AfterOneMore(events, f);
    var p := After(events[..f]);
    if p.entry.Some? {
      WithoutSignalIsSublist(p.entry.value.signals, wallet, signature);
    }
  }

  lemma {:induction false} StaysAbsent(events: seq<Event>, f: nat, n: nat, wallet: Pubkey, signature: string)
    requires f < n <= |events| && WithdrawsAt(events, f, wallet, signature)
    requires forall k | f < k < n :: !VotesAgainAt(events, k, wallet, signature)
    ensures Absent(After(events[..n]), wallet, signature)
    decreases n
  {
    hide After, Remembers, Accepts, Step, Admitted;
    if n == f + 1 {
      AbsentAfterWithdrawal(events, f, wallet, signature);
    } else {
      StaysAbsent(events, f, n - 1, wallet, signature);
      AfterOneMore(events, n - 1);
      StepBringsVoteIff(After(events[..n - 1]), events[n - 1], wallet, signature);
      assert !VotesAgainAt(events, n - 1, wallet, signature);
      if events[n - 1].Copy? {
        AdmittedIff(events, n - 1);
      }
    }
  }

  /**
   * After its transaction was reported as failed, a vote is back in the entry at some time exactly if a copy of it
   * votes again; by the next lemma the filter must have forgotten the transaction in between.
   */
  lemma WithdrawnVoteReturnsIff(events: seq<Event>, f: nat, wallet: Pubkey, signature: string)
    requires f < |events| && WithdrawsAt(events, f, wallet, signature)
    ensures (exists n :: f < n <= |events| && !Absent(After(events[..n]), wallet, signature)) <==>
      exists k :: f < k < |events| && VotesAgainAt(events, k, wallet, signature)
  {
    hide After, Remembers, Accepts, Step, Admitted, Absent;
    if k :| f < k < |events| && VotesAgainAt(events, k, wallet, signature) {
      AdmittedIff(events, k);
      AfterOneMore(events, k);
      if Absent(After(events[..k]), wallet, signature) {
        StepBringsVoteIff(After(events[..k]), events[k], wallet, signature);
        assert !Absent(After(events[..k + 1]), wallet, signature);
      }
    } else {
      forall n | f < n <= |events| ensures Absent(After(events[..n]), wallet, signature) {
        StaysAbsent(events, f, n, wallet, signature);
      }
    }
  }

  /** Without a purge at least ten seconds after the last copy, no copy votes again. */
  lemma VotesAgainOnlyIfForgotten(events: seq<Event>, f: nat, k: nat, wallet: Pubkey, signature: string)
    requires f < k < |events| && WithdrawsAt(events, f, wallet, signature) && VotesAgainAt(events, k, wallet, signature)
    ensures exists i :: f < i < k && Forgets(events, i, signature)
  {
    hide After, Accepts, Admitted;
    assert events[..k][f] == events[f];
    assert !RemembersAt(events[..k], signature, !events[k].signal.preExecution, f);
    var i :| f < i < k && Forgets(events[..k], i, signature);
    ForgetsInPrefix(events, k, i, signature);
  }

  /** So a vote stays out as long as the signature is remembered. */
  lemma WithdrawnVoteStaysOut(events: seq<Event>, f: nat, n: nat, wallet: Pubkey, signature: string)
    requires f < n <= |events| && WithdrawsAt(events, f, wallet, signature)
    requires forall i | f < i < |events| :: !Forgets(events, i, signature)
    ensures Absent(After(events[..n]), wallet, signature)
  {
    hide After, Forgets, Remembers, Accepts;
    forall k | f < k < n ensures !VotesAgainAt(events, k, wallet, signature) {
      if VotesAgainAt(events, k, wallet, signature) {
        VotesAgainOnlyIfForgotten(events, f, k, wallet, signature);
      }
    }
    StaysAbsent(events, f, n, wallet, signature);
  }

  /** And it does return: a purge ten seconds later, and a straggling pre-execution copy. */
  lemma PurgedVoteReturns(s: BuySignal, at: nat)
    requires s.preExecution
    ensures !Absent(After([Copy(s.(preExecution := false), true, true, at), PurgeSignatures(at + 10000),
                           Copy(s, false, true, at + 10000)]), s.wallet, s.signature)
  {
    var events := [Copy(s.(preExecution := false), true, true, at), PurgeSignatures(at + 10000),
                   Copy(s, false, true, at + 10000)];
    AfterOneMore(events, 0);
    AfterOneMore(events, 1);
    AfterOneMore(events, 2);
    assert events[..0] == [] && events[..3] == events;
    StepBringsVoteIff(After(events[..2]), events[2], s.wallet, s.signature);
  }
}
