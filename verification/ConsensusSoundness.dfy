/** No phantom votes: what stands behind a trigger in any run, with expiry, rejections, revocations and cleanups. */
module ConsensusSoundness {
  import opened Common
  import opened Consensus
  import opened ConsensusRuns

  /** The signal was submitted and its transaction has not been reported as failed since. */
  ghost predicate Stands(h: seq<Event>, s: BuySignal)
  {
    exists i :: 0 <= i < |h| && StandsSince(h, s, i)
  }

  ghost predicate StandsSince(h: seq<Event>, s: BuySignal, i: nat)
    requires i < |h|
  {
    h[i].Vote? && h[i].signal == s && forall j | i < j < |h| :: h[j] != Withdraw(s.wallet, s.signature)
  }

  ghost predicate Backed(e: Option<TokenSignals>, h: seq<Event>)
  {
    e.Some? ==> forall s | s in e.value.signals :: Stands(h, s)
  }

  lemma StillStands(h: seq<Event>, s: BuySignal, ev: Event)
    requires Stands(h, s) && ev != Withdraw(s.wallet, s.signature)
    ensures Stands(h + [ev], s)
  {
    var i :| 0 <= i < |h| && StandsSince(h, s, i);
    assert StandsSince(h + [ev], s, i);
  }

  /** Where the signals of an entry come from. */
  lemma SignalsAfter(e: Option<TokenSignals>, ev: Event)
    ensures Step(e, ev).Some? ==> forall s | s in Step(e, ev).value.signals ::
      || (ev.Vote? && s == ev.signal)
      || (e.Some? && s in e.value.signals && ev != Withdraw(s.wallet, s.signature))
  {
    match e
    case None =>
      if ev.Vote? {
        RetainFreshIsSublist([], ev.now, Opened(ev.signal).timeout);
      }
    case Some(t) =>
      match ev
      case Vote(s, now) =>
        RetainFreshIsSublist(t.signals, now, t.timeout);
        SublistFacts(RetainFresh(t.signals, now, t.timeout), t.signals);
      case Withdraw(wallet, signature) =>
        WithoutSignalIsSublist(t.signals, wallet, signature);
        SublistFacts(WithoutSignal(t.signals, wallet, signature), t.signals);
      case RevokeWallet(wallet) =>
        WithoutWalletIsSublist(t.signals, wallet);
        SublistFacts(WithoutWallet(t.signals, wallet), t.signals);
      case CleanUp(now) =>
        RetainFreshIsSublist(t.signals, now, t.timeout);
        SublistFacts(RetainFresh(t.signals, now, t.timeout), t.signals);
  }

  lemma StepKeepsBacked(e: Option<TokenSignals>, h: seq<Event>, ev: Event)
    requires Backed(e, h)
    ensures Backed(Step(e, ev), h + [ev])
  {
    hide Step, Stands;
    SignalsAfter(e, ev);
    if Step(e, ev).Some? {
      forall s | s in Step(e, ev).value.signals
        ensures Stands(h + [ev], s)
      {
        if ev.Vote? && s == ev.signal {
          JustVoted(h, ev);
        } else {
          StillStands(h, s, ev);
        }
      }
    }
  }

  lemma JustVoted(h: seq<Event>, ev: Event)
    requires ev.Vote?
    ensures Stands(h + [ev], ev.signal)
  {
    assert StandsSince(h + [ev], ev.signal, |h|);
  }

  /** In every run an entry lists only signals that were submitted and still stand. */
  lemma {:induction false} RunKeepsBacked(e: Option<TokenSignals>, h: seq<Event>, events: seq<Event>)
    requires Backed(e, h)
    ensures Backed(Run(e, events), h + events)
    decreases |events|
  {
    if events == [] {
      assert h + events == h;
    } else {
      StepKeepsBacked(e, h, events[0]);
      RunKeepsBacked(Step(e, events[0]), h + [events[0]], events[1..]);
      assert h + [events[0]] + events[1..] == h + events;
    }
  }

  /** A vote that counts for a trigger at `now`. */
  ghost predicate Supports(h: seq<Event>, s: BuySignal, now: nat, timeout: nat)
  {
    Counts(s) && Stands(h, s) && (Fresh(s, now, timeout) || (h != [] && h[|h| - 1] == Vote(s, now)))
  }

  /** The wallets and the canonical signal of a trigger, from the votes it was made of. */
  lemma FiredFrom(e: TokenSignals, s: BuySignal, now: nat)
    requires Submit(e, s, now).1.Some?
    ensures var votes := Effective(Absorb(e, s, now));
      var t := Submit(e, s, now).1.value;
      && t.wallets == Wallets(votes) && |votes| >= e.minWallets && votes != [] && t.canonical == Canonical(votes)
    ensures forall x | x in Effective(Absorb(e, s, now)) :: Counts(x) && (x == s || (x in e.signals && Fresh(x, now, e.timeout)))
  {
    RetainFreshIsSublist(e.signals, now, e.timeout);
    SublistFacts(RetainFresh(e.signals, now, e.timeout), e.signals);
    RetainedAreFresh(e.signals, now, e.timeout);
    EffectiveIsSublist(Absorb(e, s, now));
    SublistFacts(Effective(Absorb(e, s, now)), Absorb(e, s, now));
  }

  /**
   * In every run, whatever expires, fails or is revoked in between, a trigger names at least the quorum of
   * distinct wallets, each with a counting vote that stands and has not expired, and imitates one of these votes.
   */
  lemma TriggerNamesStandingVotes(events: seq<Event>, s: BuySignal, now: nat)
    requires forall i | 0 <= i < |events| :: AsksForQuorum(events[i])
    requires s.minWallets >= 1 && Fired(Run(None, events), Vote(s, now)).Some?
    ensures var e := EntryFor(Run(None, events), s);
      var t := Fired(Run(None, events), Vote(s, now)).value;
      var h := events + [Vote(s, now)];
      && |t.wallets| >= e.minWallets >= 1
      && (forall i, j | 0 <= i < j < |t.wallets| :: t.wallets[i] != t.wallets[j])
      && (forall i | 0 <= i < |t.wallets| :: exists x: BuySignal :: x.wallet == t.wallets[i] && Supports(h, x, now, e.timeout))
      && t.canonical.wallet in t.wallets && Supports(h, t.canonical, now, e.timeout)
  {
    hide Run, Step, Submit, Absorb, Effective, Canonical, Supports, Stands, Counts;
    var run := Run(None, events);
    var e := EntryFor(run, s);
    var ev := Vote(s, now);
    RunKeepsBacked(None, [], events);
    assert [] + events == events;
    UntriggeredIsBelowQuorum(None, events);
    EntryIsFine(run, s);
    FiredFrom(e, s, now);
    var votes := Effective(Absorb(e, s, now));
    VotesSupport(e, s, now, events, votes);
    VotersDiffer(e, s, now);
    var k := CanonicalIsLastBest(votes);
    assert Wallets(votes)[k] == votes[k].wallet;
    forall i | 0 <= i < |votes|
      ensures exists x: BuySignal :: x.wallet == Wallets(votes)[i] && Supports(events + [ev], x, now, e.timeout)
    {
      assert votes[i].wallet == Wallets(votes)[i] && votes[i] in votes;
    }
    assert votes[k] in votes;
  }

  lemma EntryIsFine(e: Option<TokenSignals>, s: BuySignal)
    requires Inv(e) && s.minWallets >= 1
    ensures Inv(Some(EntryFor(e, s)))
  {
  }

  lemma VotesSupport(e: TokenSignals, s: BuySignal, now: nat, events: seq<Event>, votes: seq<BuySignal>)
    requires forall x | x in votes :: Counts(x) && (x == s || (x in e.signals && Fresh(x, now, e.timeout)))
    requires forall x | x in e.signals :: Stands(events, x)
    ensures forall x | x in votes :: Supports(events + [Vote(s, now)], x, now, e.timeout)
  {
    hide Stands;
    JustVoted(events, Vote(s, now));
    forall x | x in votes
      ensures Supports(events + [Vote(s, now)], x, now, e.timeout)
    {
      if x != s {
        StillStands(events, x, Vote(s, now));
      }
    }
  }

  lemma VotersDiffer(e: TokenSignals, s: BuySignal, now: nat)
    requires Inv(Some(e))
    ensures DistinctWallets(Effective(Absorb(e, s, now)))
  {
    SubmitKeepsInv(e, s, now);
    EffectiveIsSublist(Absorb(e, s, now));
    SublistFacts(Effective(Absorb(e, s, now)), Absorb(e, s, now));
  }

  // ---- Revocation ----

  /** Revoking a wallet takes its vote away exactly when the entry has not triggered, or there was no vote to take. */
  lemma RevokeTakesEffectIff(e: TokenSignals, wallet: Pubkey)
    ensures (forall s | s in Revoke(e, wallet).signals :: s.wallet != wallet) <==>
      !e.triggered || forall s | s in e.signals :: s.wallet != wallet
  {
    WithoutWalletIsSublist(e.signals, wallet);
  }

  /** A counting vote for a pair of wallets, detected at time zero. */
  predicate PairVote(s: BuySignal)
  {
    Counts(s) && s.minWallets == 2 && s.detectedAt == 0 && s.timeoutSecs >= 1
  }

  /**
   * So a revocation that comes while the entry is triggered is lost: when another vote of the pair then fails and
   * takes the trigger back, the revoked wallet's vote helps to trigger again.
   */
  lemma RevokedVoteTriggersAgain(a: BuySignal, b: BuySignal, c: BuySignal)
    requires PairVote(a) && PairVote(b) && PairVote(c)
    requires a.wallet != b.wallet && a.wallet != c.wallet && b.wallet != c.wallet
    ensures var e := Run(None, [Vote(a, 0), Vote(b, 0), RevokeWallet(a.wallet), Withdraw(b.wallet, b.signature)]);
      Fired(e, Vote(c, 0)).Some? && Fired(e, Vote(c, 0)).value.wallets == [a.wallet, c.wallet]
  {
    hide Run, Submit, Reject, Effective, Absorb, WithoutSignal, RetainFresh, Canonical, Earliest, Counts;
    var blank := Opened(a);
    FirstVote(blank, a);
    var one := blank.(signals := [a]);
    SecondVote(one, a, b);
    var both := one.(signals := [a, b], triggered := true);
    assert Revoke(both, a.wallet) == both;
    WithdrawSecond(both, a, b);
    SecondVote(one, a, c);
    FourSteps(None, Vote(a, 0), Vote(b, 0), RevokeWallet(a.wallet), Withdraw(b.wallet, b.signature));
  }

  lemma FourSteps(e: Option<TokenSignals>, a: Event, b: Event, c: Event, d: Event)
    ensures Run(e, [a, b, c, d]) == Step(Step(Step(Step(e, a), b), c), d)
  {
    hide *;
    assert [a] + [b] + [c] + [d] == [a, b, c, d];
    RunAppend(e, [a] + [b] + [c], [d]);
    RunAppend(e, [a] + [b], [c]);
    RunAppend(e, [a], [b]);
    RunOne(e, a);
    RunOne(Step(e, a), b);
    RunOne(Step(Step(e, a), b), c);
    RunOne(Step(Step(Step(e, a), b), c), d);
  }

  lemma FirstVote(blank: TokenSignals, a: BuySignal)
    requires PairVote(a) && blank == Opened(a)
    ensures Submit(blank, a, 0) == (blank.(signals := [a]), None)
  {
    assert [] + [a] == [a];
    OneCounted(a);
  }

  lemma OneCounted(a: BuySignal)
    requires Counts(a)
    ensures Effective([a]) == [a]
  {
    assert [a][..0] == [];
  }

  lemma TwoCounted(a: BuySignal, b: BuySignal)
    requires Counts(a) && Counts(b)
    ensures Effective([a, b]) == [a, b]
  {
    OneCounted(a);
    assert [a, b][..1] == [a];
  }

  lemma SecondVote(e: TokenSignals, a: BuySignal, b: BuySignal)
    requires PairVote(a) && PairVote(b) && a.wallet != b.wallet
    requires e.signals == [a] && !e.triggered && e.minWallets == 2 && e.timeout > 0
    ensures Submit(e, b, 0).0 == e.(signals := [a, b], triggered := true)
    ensures Submit(e, b, 0).1.Some? && Submit(e, b, 0).1.value.wallets == [a.wallet, b.wallet]
  {
    assert [a][..0] == [];
    assert RetainFresh([a], 0, e.timeout) == [a];
    assert Absorb(e, b, 0) == [a, b];
    TwoCounted(a, b);
    assert Wallets([a, b]) == [a.wallet, b.wallet];
  }

  lemma WithdrawSecond(e: TokenSignals, a: BuySignal, b: BuySignal)
    requires Counts(a) && a.wallet != b.wallet && e.signals == [a, b] && e.minWallets == 2
    ensures Reject(e, b.wallet, b.signature) == e.(signals := [a], triggered := false)
  {
    assert [a, b][..1] == [a] && [a][..0] == [];
    assert WithoutSignal([a], b.wallet, b.signature) == [a];
    OneCounted(a);
  }
}
