/** The consensus engine seen from its inputs: what the votes asked for, and when a trigger comes of them. */
module ConsensusInputs {
  import opened Common
  import opened Consensus
  import opened ConsensusRuns
  import opened ConsensusSoundness
  import R = ConsensusRefinement

  /** A signal is compared by the instruction it carries, then by its accounts, by lamports, and by having been executed. */
  lemma ScoreIsLexicographic(a: BuySignal, b: BuySignal)
    ensures Score(a) < Score(b) <==>
      var (i, j) := (|a.instructionData| >= 24, |b.instructionData| >= 24);
      var (k, l) := (|a.instructionAccounts| > 0, |b.instructionAccounts| > 0);
      var (m, n) := (a.lamports > 0, b.lamports > 0);
      || (!i && j)
      || (i == j && !k && l)
      || (i == j && k == l && !m && n)
      || (i == j && k == l && m == n && a.preExecution && !b.preExecution)
  {
  }

  // ---- The vote that opened the entry ----

  /** Event `i` is the vote that opened the entry there is at the end. */
  ghost predicate OpenedBy(events: seq<Event>, i: nat)
  {
    && i < |events| && events[i].Vote? && Run(None, events[..i]).None?
    && forall j | i < j <= |events| :: Run(None, events[..j]).Some?
  }

  lemma RunLast(events: seq<Event>)
    requires events != []
    ensures Run(None, events) == Step(Run(None, events[..|events| - 1]), events[|events| - 1])
  {
    hide Step, Run;
    var init, last := events[..|events| - 1], events[|events| - 1];
    assert events == init + [last];
    RunAppend(None, init, [last]);
    RunOne(Run(None, init), last);
  }

  lemma StepKeepsTerms(e: Option<TokenSignals>, ev: Event)
    ensures e.Some? && Step(e, ev).Some? ==>
      Step(e, ev).value.minWallets == e.value.minWallets && Step(e, ev).value.timeout == e.value.timeout
    ensures e.None? && Step(e, ev).Some? ==>
      && ev.Vote?
      && Step(e, ev).value.minWallets == ev.signal.minWallets
      && Step(e, ev).value.timeout == 1000 * Max(ev.signal.timeoutSecs, 1)
  {
    hide Absorb, Effective, Taken, Canonical, Earliest, WithoutSignal, WithoutWallet, RetainFresh;
  }

  /** In every run the quorum and the timeout are those that the opening vote asked for. */
  lemma {:induction false} TermsOfOpening(events: seq<Event>) returns (i: nat)
    requires Run(None, events).Some?
    ensures OpenedBy(events, i)
    ensures var e := Run(None, events).value;
      e.minWallets == events[i].signal.minWallets && e.timeout == 1000 * Max(events[i].signal.timeoutSecs, 1)
    decreases |events|
  {
    hide Step;
    assert events != [];
    var n := |events| - 1;
    var init := events[..n];
    RunLast(events);
    StepKeepsTerms(Run(None, init), events[n]);
    assert events[..|events|] == events;
    if Run(None, init).Some? {
      i := TermsOfOpening(init);
      assert init[..i] == events[..i];
      forall j | i < j <= |events|
        ensures Run(None, events[..j]).Some?
      {
        if j <= n {
          assert init[..j] == events[..j];
        }
      }
    } else {
      i := n;
    }
  }

  /** A standing vote of the kind that is counted: it carries the instruction or lamports, or came through a wrapper. */
  ghost predicate CountedVote(h: seq<Event>, x: BuySignal, wallet: Pubkey)
  {
    && x.wallet == wallet && Stands(h, x)
    && (|x.instructionData| >= 24 || x.lamports > 0 || x.origin.WrapperCpi?)
  }

  /** Named by a trigger at `now`: some counted vote of the wallet is the deciding one or younger than the timeout. */
  ghost predicate NamedRightly(h: seq<Event>, wallet: Pubkey, s: BuySignal, now: nat, timeoutSecs: nat)
  {
    exists x: BuySignal :: CountedVote(h, x, wallet) && (x == s || now < x.detectedAt + 1000 * Max(timeoutSecs, 1))
  }

  lemma SupportsMeans(h: seq<Event>, x: BuySignal, s: BuySignal, now: nat, timeoutSecs: nat)
    requires h != [] && h[|h| - 1] == Vote(s, now) && Supports(h, x, now, 1000 * Max(timeoutSecs, 1))
    ensures NamedRightly(h, x.wallet, s, now, timeoutSecs)
  {
    hide Stands;
    assert CountedVote(h, x, x.wallet);
  }

  /** Whatever happens in a run, a trigger meets the quorum and the timeout of the vote that opened the entry. */
  lemma TriggerMeetsOpening(events: seq<Event>, s: BuySignal, now: nat) returns (i: nat)
    requires forall k | 0 <= k < |events| :: AsksForQuorum(events[k])
    requires s.minWallets >= 1 && Fired(Run(None, events), Vote(s, now)).Some?
    ensures var h := events + [Vote(s, now)];
      var t := Fired(Run(None, events), Vote(s, now)).value;
      && OpenedBy(h, i)
      && t.groupId == s.groupId && t.tokenMint == s.tokenMint
      && |t.wallets| >= h[i].signal.minWallets
      && (forall a, b | 0 <= a < b < |t.wallets| :: t.wallets[a] != t.wallets[b])
      && (forall a | 0 <= a < |t.wallets| :: NamedRightly(h, t.wallets[a], s, now, h[i].signal.timeoutSecs))
      && NamedRightly(h, t.canonical.wallet, s, now, h[i].signal.timeoutSecs)
  {
    hide Step, Supports, Submit, NamedRightly;
    var h := events + [Vote(s, now)];
    var t := Fired(Run(None, events), Vote(s, now)).value;
    assert h[..|events|] == events;
    RunLast(h);
    VoteLeavesEntry(Run(None, events), s, now);
    i := TermsOfOpening(h);
    TriggerNamesStandingVotes(events, s, now);
    TriggerNamesKey(EntryFor(Run(None, events), s), s, now);
    forall x: BuySignal | Supports(h, x, now, 1000 * Max(h[i].signal.timeoutSecs, 1))
      ensures NamedRightly(h, x.wallet, s, now, h[i].signal.timeoutSecs)
    {
      SupportsMeans(h, x, s, now, h[i].signal.timeoutSecs);
    }
  }

  lemma TriggerNamesKey(e: TokenSignals, s: BuySignal, now: nat)
    ensures Submit(e, s, now).1.Some? ==> Submit(e, s, now).1.value.groupId == s.groupId && Submit(e, s, now).1.value.tokenMint == s.tokenMint
  {
    hide Absorb, Effective, Taken, Canonical, Earliest;
  }

  lemma VoteLeavesEntry(e: Option<TokenSignals>, s: BuySignal, now: nat)
    ensures var after := Step(e, Vote(s, now));
      after.Some? && after.value.minWallets == EntryFor(e, s).minWallets && after.value.timeout == EntryFor(e, s).timeout
  {
    hide Absorb, Effective, Taken, Canonical, Earliest;
  }

  predicate AsksFor(ev: Event, quorum: nat, timeoutSecs: nat)
  {
    ev.Vote? ==> ev.signal.minWallets == quorum && ev.signal.timeoutSecs == timeoutSecs
  }

  /** In particular where all votes ask for the same. */
  lemma TriggerMeetsTerms(events: seq<Event>, s: BuySignal, now: nat, quorum: nat, timeoutSecs: nat)
    requires quorum >= 1 && AsksFor(Vote(s, now), quorum, timeoutSecs)
    requires forall k | 0 <= k < |events| :: AsksFor(events[k], quorum, timeoutSecs)
    requires Fired(Run(None, events), Vote(s, now)).Some?
    ensures var h := events + [Vote(s, now)];
      var t := Fired(Run(None, events), Vote(s, now)).value;
      && |t.wallets| >= quorum
      && (forall a, b | 0 <= a < b < |t.wallets| :: t.wallets[a] != t.wallets[b])
      && (forall a | 0 <= a < |t.wallets| :: NamedRightly(h, t.wallets[a], s, now, timeoutSecs))
      && NamedRightly(h, t.canonical.wallet, s, now, timeoutSecs)
  {
    hide Run, Fired, NamedRightly;
    var i := TriggerMeetsOpening(events, s, now);
    var h := events + [Vote(s, now)];
    assert h[i] == if i < |events| then events[i] else Vote(s, now);
  }

  // ---- When the trigger comes ----

  /** The wallets whose best vote so far is of the kind that is counted. */
  ghost function Voters(h: seq<R.Submission>): set<Pubkey>
  {
    set i | 0 <= i < |h| && BestIsCounted(h, h[i].signal.wallet) :: h[i].signal.wallet
  }

  ghost predicate BestIsCounted(h: seq<R.Submission>, wallet: Pubkey)
  {
    exists s :: R.BestOf(h, s) && s.wallet == wallet
      && (|s.instructionData| >= 24 || s.lamports > 0 || s.origin.WrapperCpi?)
  }

  lemma {:induction false} DistinctAsSet(s: seq<Pubkey>)
    requires forall a, b | 0 <= a < b < |s| :: s[a] != s[b]
    ensures |Elements(s)| == |s|
    decreases |s|
  {
    if s != [] {
      var init, last := s[..|s| - 1], s[|s| - 1];
      DistinctAsSet(init);
      assert s == init + [last];
      assert Elements(s) == Elements(init) + {last} && last !in Elements(init);
    }
  }

  lemma VotersOfDigest(h: seq<R.Submission>, votes: seq<BuySignal>)
    requires R.Digest(h, votes)
    ensures Elements(Wallets(Effective(votes))) == Voters(h) && |Effective(votes)| == |Voters(h)|
  {
    var wallets := Wallets(Effective(votes));
    R.DigestWalletsDiffer(h, votes);
    R.EffectiveKeepsDistinct(votes);
    DistinctAsSet(wallets);
    forall w ensures w in Elements(wallets) <==> w in Voters(h) {
      if w in Elements(wallets) {
        var k :| 0 <= k < |wallets| && wallets[k] == w;
        VoteIsVoter(h, votes, Effective(votes)[k]);
      }
      if w in Voters(h) {
        var s :| R.BestOf(h, s) && s.wallet == w && (|s.instructionData| >= 24 || s.lamports > 0 || s.origin.WrapperCpi?);
        R.BestIsListed(h, votes, s);
        var k :| 0 <= k < |wallets| && Effective(votes)[k] == s;
        assert wallets[k] == w;
      }
    }
  }

  lemma VoteIsVoter(h: seq<R.Submission>, votes: seq<BuySignal>, s: BuySignal)
    requires R.Digest(h, votes) && s in votes && Counts(s)
    ensures s.wallet in Voters(h)
  {
    var k :| 0 <= k < |votes| && votes[k] == s;
    assert R.BestOf(h, votes[k]);
    var i: nat :| R.BestAt(h, s, i);
    assert h[i].signal == s && BestIsCounted(h, h[i].signal.wallet);
  }

  function Votes(h: seq<R.Submission>): (events: seq<Event>)
    ensures |events| == |h| && forall i | 0 <= i < |h| :: events[i] == Vote(h[i].signal, h[i].now)
  {
    seq(|h|, i requires 0 <= i < |h| => Vote(h[i].signal, h[i].now))
  }

  /** The run of the votes is the entry of the refinement, opened by the first of them. */
  lemma {:induction false} VotesRun(h: seq<R.Submission>)
    requires h != []
    ensures Run(None, Votes(h)) == Some(R.EntryAfter(Opened(h[0].signal), h))
    decreases |h|
  {
    hide Submit, Opened;
    var n := |h| - 1;
    RunLast(Votes(h));
    assert Votes(h)[..n] == Votes(h[..n]);
    if n > 0 {
      VotesRun(h[..n]);
    }
  }

  lemma FiredByLast(h: seq<R.Submission>)
    requires h != []
    ensures Fired(Run(None, Votes(h[..|h| - 1])), Vote(h[|h| - 1].signal, h[|h| - 1].now)) == R.TriggerOfLast(Opened(h[0].signal), h)
  {
    hide Submit, Opened;
    if |h| > 1 {
      VotesRun(h[..|h| - 1]);
    }
  }

  /** Each vote comes in time for every earlier one, by the timeout of the first. */
  predicate InTime(h: seq<R.Submission>, timeoutSecs: nat)
  {
    forall i, j | 0 <= i <= j < |h| :: h[j].now < h[i].signal.detectedAt + 1000 * Max(timeoutSecs, 1)
  }

  lemma {:induction false} DigestExists(h: seq<R.Submission>) returns (votes: seq<BuySignal>)
    ensures R.Digest(h, votes)
    decreases |h|
  {
    hide R.Digest, R.Absorbed;
    if h == [] {
      votes := [];
      EmptyDigest();
    } else {
      var init := h[..|h| - 1];
      var before := DigestExists(init);
      R.DigestStep(init, before, h[|h| - 1]);
      votes := R.Absorbed(before, h[|h| - 1].signal);
      assert h == init + [h[|h| - 1]];
    }
  }

  lemma EmptyDigest()
    ensures R.Digest([], [])
  {
  }

  lemma ReachesByVoters(h: seq<R.Submission>, quorum: nat)
    ensures R.Reaches(h, quorum) <==> |Voters(h)| >= quorum
  {
    hide R.Digest, R.Reaches, Voters;
    var votes := DigestExists(h);
    VotersOfDigest(h, votes);
    R.ReachesIff(h, votes, quorum);
  }

  /**
   * While none expires, the trigger comes at the first vote with which as many wallets have a counted best vote as the
   * first vote asked for, and it names these wallets.
   */
  lemma FiresAtQuorumOfVoters(h: seq<R.Submission>)
    requires h != [] && h[0].signal.minWallets >= 1 && InTime(h, h[0].signal.timeoutSecs)
    ensures var n := |h| - 1;
      var quorum := h[0].signal.minWallets;
      var fired := Fired(Run(None, Votes(h[..n])), Vote(h[n].signal, h[n].now));
      && (fired.Some? <==> |Voters(h)| >= quorum && forall m | 0 <= m <= n :: |Voters(h[..m])| < quorum)
      && (fired.Some? ==> Elements(fired.value.wallets) == Voters(h) && |fired.value.wallets| == |Voters(h)|)
  {
    hide Voters, R.Digest, R.Reaches, R.TriggerOfLast, Run, Fired, Effective;
    var n := |h| - 1;
    var init := h[..n];
    var start := Opened(h[0].signal);
    TermsOfOpened(h[0].signal);
    FiredByLast(h);
    assert R.NoneExpires(h, start.timeout);
    R.FiresAtFirstQuorum(start, h);
    ReachesByVoters(h, start.minWallets);
    forall m | 0 <= m <= n
      ensures init[..m] == h[..m] && (R.Reaches(init[..m], start.minWallets) <==> |Voters(h[..m])| >= start.minWallets)
    {
      assert init[..m] == h[..m];
      ReachesByVoters(h[..m], start.minWallets);
    }
    if R.TriggerOfLast(start, h).Some? {
      var t := R.TriggerOfLast(start, h).value;
      var votes :| R.Digest(h, votes) && t.wallets == Wallets(Effective(votes));
      VotersOfDigest(h, votes);
    }
  }

  lemma TermsOfOpened(s: BuySignal)
    ensures var e := Opened(s);
      e.signals == [] && !e.triggered && e.minWallets == s.minWallets && e.timeout == 1000 * Max(s.timeoutSecs, 1)
  {
  }

  // ---- Revoked wallets ----

  /** A revocation in time takes the wallet's votes and no others, in their order. */
  lemma RevokedAre(e: TokenSignals, wallet: Pubkey)
    ensures Sublist(Revoke(e, wallet).signals, e.signals)
    ensures forall s :: s in Revoke(e, wallet).signals <==> s in e.signals && (e.triggered || s.wallet != wallet)
  {
    WithoutWalletKeepsOthers(e.signals, wallet);
    WithoutWalletIsSublist(e.signals, wallet);
    SublistFacts(WithoutWallet(e.signals, wallet), e.signals);
    SublistOfItself(e.signals);
  }

  lemma {:induction false} WithoutWalletKeepsOthers(signals: seq<BuySignal>, wallet: Pubkey)
    ensures forall s | s in signals && s.wallet != wallet :: s in WithoutWallet(signals, wallet)
    decreases |signals|
  {
    if signals != [] {
      WithoutWalletKeepsOthers(signals[..|signals| - 1], wallet);
      assert signals == signals[..|signals| - 1] + [signals[|signals| - 1]];
    }
  }

  lemma {:induction false} SublistOfItself(signals: seq<BuySignal>)
    ensures Sublist(signals, signals)
    decreases |signals|
  {
    if signals != [] {
      SublistOfItself(signals[..|signals| - 1]);
    }
  }

  ghost predicate HasNoVoteOf(e: Option<TokenSignals>, wallet: Pubkey)
  {
    e.Some? ==> forall s | s in e.value.signals :: s.wallet != wallet
  }

  lemma {:induction false} StaysWithout(e: Option<TokenSignals>, events: seq<Event>, wallet: Pubkey)
    requires HasNoVoteOf(e, wallet)
    requires forall ev | ev in events && ev.Vote? :: ev.signal.wallet != wallet
    ensures HasNoVoteOf(Run(e, events), wallet)
    decreases |events|
  {
    hide Step;
    if events != [] {
      SignalsAfter(e, events[0]);
      assert events[0] in events;
      StaysWithout(Step(e, events[0]), events[1..], wallet);
    }
  }

  /** Once a wallet has been revoked in time, no trigger names it until it votes again. */
  lemma RevokedWalletIsNotNamed(e: TokenSignals, wallet: Pubkey, events: seq<Event>, s: BuySignal, now: nat)
    requires !e.triggered && s.wallet != wallet
    requires forall ev | ev in events && ev.Vote? :: ev.signal.wallet != wallet
    requires Fired(Run(Step(Some(e), RevokeWallet(wallet)), events), Vote(s, now)).Some?
    ensures wallet !in Fired(Run(Step(Some(e), RevokeWallet(wallet)), events), Vote(s, now)).value.wallets
  {
    hide Run, Submit, Absorb, Effective, Canonical, Counts, Stands;
    RevokedAre(e, wallet);
    var after := Run(Step(Some(e), RevokeWallet(wallet)), events);
    StaysWithout(Step(Some(e), RevokeWallet(wallet)), events, wallet);
    var entry := EntryFor(after, s);
    FiredFrom(entry, s, now);
    var votes := Effective(Absorb(entry, s, now));
    forall i | 0 <= i < |votes|
      ensures Wallets(votes)[i] != wallet
    {
      assert votes[i] in votes;
    }
  }
}
