/** What every run of one consensus entry keeps: the quorum bound, and when it may trigger again. */
module ConsensusRuns {
  import opened Common
  import opened Consensus

  /** Everything that can happen to one (group, token) entry. */
  datatype Event =
    | Vote(signal: BuySignal, now: nat)
    | Withdraw(wallet: Pubkey, signature: string)
    | RevokeWallet(wallet: Pubkey)
    | CleanUp(now: nat)

  function EntryFor(e: Option<TokenSignals>, s: BuySignal): TokenSignals
  {
    if e.Some? then e.value else Opened(s)
  }

  function Step(e: Option<TokenSignals>, ev: Event): Option<TokenSignals>
  {
    match ev
    case Vote(s, now) => Some(Submit(EntryFor(e, s), s, now).0)
    case Withdraw(wallet, signature) => if e.Some? then Some(Reject(e.value, wallet, signature)) else None
    case RevokeWallet(wallet) => if e.Some? then Some(Revoke(e.value, wallet)) else None
    case CleanUp(now) => if e.Some? then Cleanup(e.value, now) else None
  }

  function Fired(e: Option<TokenSignals>, ev: Event): Option<ConsensusTrigger>
  {
    if ev.Vote? then Submit(EntryFor(e, ev.signal), ev.signal, ev.now).1 else None
  }

  function Run(e: Option<TokenSignals>, events: seq<Event>): Option<TokenSignals>
    decreases |events|
  {
    if events == [] then e else Run(Step(e, events[0]), events[1..])
  }

  lemma RunOne(e: Option<TokenSignals>, ev: Event)
    ensures Run(e, [ev]) == Step(e, ev)
  {
    hide Step;
    assert Run(e, [ev]) == Run(Step(e, ev), []);
  }

  lemma {:induction false} RunAppend(e: Option<TokenSignals>, a: seq<Event>, b: seq<Event>)
    ensures Run(e, a + b) == Run(Run(e, a), b)
    decreases |a|
  {
    if a == [] {
      assert a + b == b;
    } else {
      assert (a + b)[1..] == a[1..] + b;
      RunAppend(Step(e, a[0]), a[1..], b);
    }
  }

  // ---- List facts ----

  ghost predicate DistinctWallets(signals: seq<BuySignal>)
  {
    forall i, j | 0 <= i < j < |signals| :: signals[i].wallet != signals[j].wallet
  }

  /** `t` consists of some of the elements of `s`, in order. */
  ghost predicate Sublist(t: seq<BuySignal>, s: seq<BuySignal>)
    decreases |s|
  {
    if s == [] then t == []
    else Sublist(t, s[..|s| - 1])
         || (t != [] && t[|t| - 1] == s[|s| - 1] && Sublist(t[..|t| - 1], s[..|s| - 1]))
  }

  lemma {:induction false} SublistFacts(t: seq<BuySignal>, s: seq<BuySignal>)
    requires Sublist(t, s)
    ensures |t| <= |s| && |Effective(t)| <= |Effective(s)|
    ensures forall x | x in t :: x in s
    ensures DistinctWallets(s) ==> DistinctWallets(t)
    decreases |s|
  {
    if s != [] {
      var s' := s[..|s| - 1];
      assert s == s' + [s[|s| - 1]];
      if Sublist(t, s') {
        SublistFacts(t, s');
      } else {
        SublistFacts(t[..|t| - 1], s');
        assert t == t[..|t| - 1] + [t[|t| - 1]];
        if DistinctWallets(s) {
          forall i | 0 <= i < |t| - 1
            ensures t[i].wallet != t[|t| - 1].wallet
          {
            assert t[..|t| - 1][i] in s';
            var m :| 0 <= m < |s'| && s'[m] == t[i];
            assert s[m].wallet != s[|s| - 1].wallet;
          }
        }
      }
    }
  }

  lemma {:induction false} RetainFreshIsSublist(s: seq<BuySignal>, now: nat, timeout: nat)
    ensures Sublist(RetainFresh(s, now, timeout), s)
    decreases |s|
  {
    if s != [] {
      RetainFreshIsSublist(s[..|s| - 1], now, timeout);
      var rest, last := RetainFresh(s[..|s| - 1], now, timeout), s[|s| - 1];
      assert (rest + [last])[..|rest|] == rest;
    }
  }

  lemma {:induction false} WithoutSignalIsSublist(s: seq<BuySignal>, wallet: Pubkey, signature: string)
    ensures Sublist(WithoutSignal(s, wallet, signature), s)
    ensures forall x | x in s && !(x.wallet == wallet && x.signature == signature) :: x in WithoutSignal(s, wallet, signature)
    ensures forall x | x in WithoutSignal(s, wallet, signature) :: !(x.wallet == wallet && x.signature == signature)
    decreases |s|
  {
    if s != [] {
      WithoutSignalIsSublist(s[..|s| - 1], wallet, signature);
      var rest, last := WithoutSignal(s[..|s| - 1], wallet, signature), s[|s| - 1];
      assert (rest + [last])[..|rest|] == rest;
      assert s == s[..|s| - 1] + [last];
    }
  }

  lemma {:induction false} WithoutWalletIsSublist(s: seq<BuySignal>, wallet: Pubkey)
    ensures Sublist(WithoutWallet(s, wallet), s)
    ensures forall x | x in WithoutWallet(s, wallet) :: x.wallet != wallet
    decreases |s|
  {
    if s != [] {
      WithoutWalletIsSublist(s[..|s| - 1], wallet);
      var rest, last := WithoutWallet(s[..|s| - 1], wallet), s[|s| - 1];
      assert (rest + [last])[..|rest|] == rest;
    }
  }

  lemma {:induction false} EffectiveIsSublist(s: seq<BuySignal>)
    ensures Sublist(Effective(s), s)
    ensures forall x | x in Effective(s) :: Counts(x)
    ensures forall x | x in s && Counts(x) :: x in Effective(s)
    decreases |s|
  {
    if s != [] {
      EffectiveIsSublist(s[..|s| - 1]);
      var rest, last := Effective(s[..|s| - 1]), s[|s| - 1];
      assert (rest + [last])[..|rest|] == rest;
      assert s == s[..|s| - 1] + [last];
    }
  }

  // ---- The quorum invariant ----

  /** Wallets vote once, and an entry that has not triggered is below its quorum. */
  ghost predicate Inv(e: Option<TokenSignals>)
  {
    e.Some? ==>
      && e.value.minWallets >= 1
      && DistinctWallets(e.value.signals)
      && (!e.value.triggered ==> |Effective(e.value.signals)| < e.value.minWallets)
  }

  /** The engine is only given groups that ask for a quorum. */
  predicate AsksForQuorum(ev: Event)
  {
    ev.Vote? ==> ev.signal.minWallets >= 1
  }

  lemma SubmitKeepsInv(e: TokenSignals, s: BuySignal, now: nat)
    requires Inv(Some(e))
    ensures Inv(Some(Submit(e, s, now).0))
  {
    var live := RetainFresh(e.signals, now, e.timeout);
    RetainFreshIsSublist(e.signals, now, e.timeout);
    SublistFacts(live, e.signals);
    assert DistinctWallets(Absorb(e, s, now));
  }

  lemma StepKeepsInv(e: Option<TokenSignals>, ev: Event)
    requires Inv(e) && AsksForQuorum(ev)
    ensures Inv(Step(e, ev))
  {
    match ev
    case Vote(s, now) => SubmitKeepsInv(EntryFor(e, s), s, now);
    case Withdraw(wallet, signature) =>
      if e.Some? {
        WithoutSignalIsSublist(e.value.signals, wallet, signature);
        SublistFacts(WithoutSignal(e.value.signals, wallet, signature), e.value.signals);
      }
    case RevokeWallet(wallet) =>
      if e.Some? {
        WithoutWalletIsSublist(e.value.signals, wallet);
        SublistFacts(WithoutWallet(e.value.signals, wallet), e.value.signals);
      }
    case CleanUp(now) =>
      if e.Some? {
        RetainFreshIsSublist(e.value.signals, now, e.value.timeout);
        SublistFacts(RetainFresh(e.value.signals, now, e.value.timeout), e.value.signals);
      }
  }

  lemma {:induction false} UntriggeredIsBelowQuorum(e: Option<TokenSignals>, events: seq<Event>)
    requires Inv(e)
    requires forall i | 0 <= i < |events| :: AsksForQuorum(events[i])
    ensures Inv(Run(e, events))
    decreases |events|
  {
    if events != [] {
      StepKeepsInv(e, events[0]);
      UntriggeredIsBelowQuorum(Step(e, events[0]), events[1..]);
    }
  }

  /** In any reachable entry a rejection can only take a trigger back, never set one. */
  lemma RejectOnlyRetracts(events: seq<Event>, wallet: Pubkey, signature: string)
    requires forall i | 0 <= i < |events| :: AsksForQuorum(events[i])
    ensures var e := Run(None, events);
      e.Some? && Reject(e.value, wallet, signature).triggered ==> e.value.triggered
  {
    UntriggeredIsBelowQuorum(None, events);
    var e := Run(None, events);
    if e.Some? {
      WithoutSignalIsSublist(e.value.signals, wallet, signature);
      SublistFacts(WithoutSignal(e.value.signals, wallet, signature), e.value.signals);
    }
  }

  /** Without any guard: an untriggered entry is below its quorum, or the quorum is zero. */
  ghost predicate BelowQuorum(e: Option<TokenSignals>)
  {
    e.Some? && !e.value.triggered ==> |Effective(e.value.signals)| < e.value.minWallets || e.value.minWallets == 0
  }

  lemma StepKeepsBelowQuorum(e: Option<TokenSignals>, ev: Event)
    requires BelowQuorum(e)
    ensures BelowQuorum(Step(e, ev))
  {
    match ev
    case Vote(s, now) =>
      var t := EntryFor(e, s);
      RetainFreshIsSublist(t.signals, now, t.timeout);
      SublistFacts(RetainFresh(t.signals, now, t.timeout), t.signals);
    case Withdraw(_, _) =>
    case RevokeWallet(wallet) =>
      if e.Some? {
        WithoutWalletIsSublist(e.value.signals, wallet);
        SublistFacts(WithoutWallet(e.value.signals, wallet), e.value.signals);
      }
    case CleanUp(now) =>
      if e.Some? {
        RetainFreshIsSublist(e.value.signals, now, e.value.timeout);
        SublistFacts(RetainFresh(e.value.signals, now, e.value.timeout), e.value.signals);
      }
  }

  lemma {:induction false} RunKeepsBelowQuorum(e: Option<TokenSignals>, events: seq<Event>)
    requires BelowQuorum(e)
    ensures BelowQuorum(Run(e, events))
    decreases |events|
  {
    if events != [] {
      StepKeepsBelowQuorum(e, events[0]);
      RunKeepsBelowQuorum(Step(e, events[0]), events[1..]);
    }
  }

  /** In any run, whatever quorums are asked for, a rejection triggers an untriggered entry exactly if its quorum is zero. */
  lemma RejectTriggersIffNoQuorum(events: seq<Event>, wallet: Pubkey, signature: string)
    ensures var e := Run(None, events);
      e.Some? && !e.value.triggered ==> (Reject(e.value, wallet, signature).triggered <==> e.value.minWallets == 0)
  {
    RunKeepsBelowQuorum(None, events);
    var e := Run(None, events);
    if e.Some? {
      WithoutSignalIsSublist(e.value.signals, wallet, signature);
      SublistFacts(WithoutSignal(e.value.signals, wallet, signature), e.value.signals);
    }
  }

  // ---- Triggers alternate with retractions ----

  /** An event after which an entry that had triggered no longer is: a retracting rejection, or its removal by the cleanup. */
  predicate Releases(e: Option<TokenSignals>, ev: Event)
  {
    e.Some? && e.value.triggered && (Step(e, ev).None? || !Step(e, ev).value.triggered)
  }

  lemma ReleaseMeans(e: Option<TokenSignals>, ev: Event)
    requires Releases(e, ev)
    ensures ev.Withdraw? || (ev.CleanUp? && Step(e, ev).None?)
  {
  }

  /** Nothing fires while an entry stays triggered. */
  lemma {:induction false} StaysTriggered(e: Option<TokenSignals>, events: seq<Event>)
    requires e.Some? && e.value.triggered
    requires forall i | 0 <= i < |events| :: !Releases(Run(e, events[..i]), events[i])
    ensures Run(e, events).Some? && Run(e, events).value.triggered
    decreases |events|
  {
    if events != [] {
      var v := Step(e, events[0]);
      assert Run(e, events[..0]) == e;
      assert !Releases(e, events[0]);
      forall i | 0 <= i < |events[1..]|
        ensures !Releases(Run(v, events[1..][..i]), events[1..][i])
      {
        assert events[..i + 1][1..] == events[1..][..i];
        assert Run(e, events[..i + 1]) == Run(v, events[1..][..i]);
        assert !Releases(Run(e, events[..i + 1]), events[i + 1]);
      }
      StaysTriggered(v, events[1..]);
    }
  }

  /** Firing leaves the entry triggered, and a triggered entry does not fire. */
  lemma FiringTriggers(e: Option<TokenSignals>, ev: Event)
    ensures Fired(e, ev).Some? ==> Step(e, ev).Some? && Step(e, ev).value.triggered
    ensures e.Some? && e.value.triggered ==> Fired(e, ev).None?
  {
    hide Absorb, Taken, Effective;
  }

  /** Between two triggers of one key lies a retracting rejection or a removal by the cleanup. */
  lemma TriggersAlternate(e: Option<TokenSignals>, first: Event, between: seq<Event>, second: Event)
    requires Fired(e, first).Some?
    requires Fired(Run(Step(e, first), between), second).Some?
    ensures exists i :: 0 <= i < |between| && Releases(Run(Step(e, first), between[..i]), between[i])
                        && (between[i].Withdraw? || between[i].CleanUp?)
  {
    hide *;
    var v := Step(e, first);
    FiringTriggers(e, first);
    FiringTriggers(Run(v, between), second);
    if forall i | 0 <= i < |between| :: !Releases(Run(v, between[..i]), between[i]) {
      StaysTriggered(v, between);
      assert false;
    } else {
      var i :| 0 <= i < |between| && Releases(Run(v, between[..i]), between[i]);
      ReleaseMeans(Run(v, between[..i]), between[i]);
    }
  }

  // ---- Cleanup ----

  lemma {:induction false} RetainedAreFresh(s: seq<BuySignal>, now: nat, timeout: nat)
    ensures forall x | x in RetainFresh(s, now, timeout) :: Fresh(x, now, timeout)
    ensures forall x | x in s && Fresh(x, now, timeout) :: x in RetainFresh(s, now, timeout)
    decreases |s|
  {
    if s != [] {
      RetainedAreFresh(s[..|s| - 1], now, timeout);
      assert s == s[..|s| - 1] + [s[|s| - 1]];
    }
  }

  /**
   * The cleanup removes an entry exactly when all its signals have expired: its longer grace period
   * for triggered entries never matters, because expired signals are dropped first.
   */
  lemma CleanupRemovesIffAllExpired(e: TokenSignals, now: nat)
    ensures Cleanup(e, now).None? <==> forall i | 0 <= i < |e.signals| :: !Fresh(e.signals[i], now, e.timeout)
  {
    var live := RetainFresh(e.signals, now, e.timeout);
    RetainedAreFresh(e.signals, now, e.timeout);
    RetainFreshIsSublist(e.signals, now, e.timeout);
    SublistFacts(live, e.signals);
    if live != [] {
      assert live[0] in live && live[0] in e.signals;
      assert Fresh(live[0], now, e.timeout);
      assert !(Elapsed(now, live[0].detectedAt) > e.timeout * 2);
    } else {
      forall i | 0 <= i < |e.signals|
        ensures !Fresh(e.signals[i], now, e.timeout)
      {
        assert e.signals[i] in e.signals;
      }
    }
  }
}
