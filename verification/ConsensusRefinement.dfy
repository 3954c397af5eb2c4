/** The entry of a token as a function of the votes submitted so far, when none has expired. */
module ConsensusRefinement {
  import opened Common
  import opened Consensus

  /** A vote and the time it reached the engine. */
  datatype Submission = Submission(signal: BuySignal, now: nat)

  // ---- What the votes so far amount to, independently of the engine ----

  ghost predicate FirstOf(h: seq<Submission>, wallet: Pubkey, i: nat)
  {
    && i < |h| && h[i].signal.wallet == wallet
    && forall j | 0 <= j < i :: h[j].signal.wallet != wallet
  }

  /** `s` is the wallet's earliest signal of maximal score. */
  ghost predicate BestOf(h: seq<Submission>, s: BuySignal)
  {
    exists i :: BestAt(h, s, i)
  }

  ghost predicate BestAt(h: seq<Submission>, s: BuySignal, i: nat)
  {
    && i < |h| && h[i].signal == s
    && (forall j | 0 <= j < |h| && h[j].signal.wallet == s.wallet :: Score(h[j].signal) <= Score(s))
    && (forall j | 0 <= j < i && h[j].signal.wallet == s.wallet :: Score(h[j].signal) < Score(s))
  }

  /** One best signal for every wallet that voted, in the order in which the wallets first appeared. */
  ghost predicate Digest(h: seq<Submission>, votes: seq<BuySignal>)
  {
    && (forall i | 0 <= i < |h| :: IndexOf(votes, h[i].signal.wallet) < |votes|)
    && (forall k | 0 <= k < |votes| :: BestOf(h, votes[k]))
    && (forall a, b, i, j | 0 <= a < b < |votes| && FirstOf(h, votes[a].wallet, i) && FirstOf(h, votes[b].wallet, j) :: i < j)
  }

  /** The quorum is met by the votes so far. */
  ghost predicate Reaches(h: seq<Submission>, minWallets: nat)
  {
    exists votes :: Digest(h, votes) && |Effective(votes)| >= minWallets
  }

  lemma {:induction false} WalletHasFirst(h: seq<Submission>, wallet: Pubkey, m: nat) returns (i: nat)
    requires m < |h| && h[m].signal.wallet == wallet
    ensures FirstOf(h, wallet, i) && i <= m
  {
    i := 0;
    while h[i].signal.wallet != wallet
      invariant i <= m && forall j | 0 <= j < i :: h[j].signal.wallet != wallet
      decreases m - i
    {
      i := i + 1;
    }
  }

  lemma FirstIsUnique(h: seq<Submission>, wallet: Pubkey, i: nat, j: nat)
    requires FirstOf(h, wallet, i) && FirstOf(h, wallet, j)
    ensures i == j
  {
  }

  lemma BestIsUnique(h: seq<Submission>, s: BuySignal, t: BuySignal)
    requires BestOf(h, s) && BestOf(h, t) && s.wallet == t.wallet
    ensures s == t
  {
    var i: nat :| BestAt(h, s, i);
    var j: nat :| BestAt(h, t, j);
  }

  lemma FirstIn(h: seq<Submission>, s: BuySignal) returns (i: nat)
    requires BestOf(h, s)
    ensures FirstOf(h, s.wallet, i)
  {
    var m: nat :| BestAt(h, s, m);
    i := WalletHasFirst(h, s.wallet, m);
  }

  lemma DigestWalletsDiffer(h: seq<Submission>, votes: seq<BuySignal>)
    requires Digest(h, votes)
    ensures forall a, b | 0 <= a < b < |votes| :: votes[a].wallet != votes[b].wallet
  {
    forall a, b | 0 <= a < b < |votes|
      ensures votes[a].wallet != votes[b].wallet
    {
      assert BestOf(h, votes[a]) && BestOf(h, votes[b]);
      var i := FirstIn(h, votes[a]);
      var j := FirstIn(h, votes[b]);
      assert i < j;
    }
  }

  /** Every signal of one digest occurs in the other. */
  lemma PositionIn(h: seq<Submission>, x: seq<BuySignal>, y: seq<BuySignal>, k: nat) returns (j: nat)
    requires Digest(h, x) && Digest(h, y) && k < |x|
    ensures j < |y| && y[j] == x[k]
  {
    assert BestOf(h, x[k]);
    var m: nat :| BestAt(h, x[k], m);
    j := IndexOf(y, h[m].signal.wallet);
    assert j < |y| && BestOf(h, y[j]);
    BestIsUnique(h, x[k], y[j]);
  }

  lemma Ordered(h: seq<Submission>, x: seq<BuySignal>, a: nat, b: nat) returns (i: nat, j: nat)
    requires Digest(h, x) && a < |x| && b < |x|
    ensures FirstOf(h, x[a].wallet, i) && FirstOf(h, x[b].wallet, j) && (a < b ==> i < j)
  {
    assert BestOf(h, x[a]) && BestOf(h, x[b]);
    i := FirstIn(h, x[a]);
    j := FirstIn(h, x[b]);
  }

  lemma SameNext(h: seq<Submission>, x: seq<BuySignal>, y: seq<BuySignal>, k: nat)
    requires Digest(h, x) && Digest(h, y) && k < |x| && k <= |y|
    requires forall m | 0 <= m < k :: x[m] == y[m]
    ensures k < |y| && x[k] == y[k]
  {
    DigestWalletsDiffer(h, x);
    DigestWalletsDiffer(h, y);
    var j := PositionIn(h, x, y, k);
    assert j >= k;
    var i := PositionIn(h, y, x, k);
    assert i >= k;
    var p, q := Ordered(h, x, k, i);
    var q', p' := Ordered(h, y, k, j);
    FirstIsUnique(h, x[k].wallet, p, p');
    FirstIsUnique(h, y[k].wallet, q, q');
  }

  lemma {:induction false} SamePrefix(h: seq<Submission>, x: seq<BuySignal>, y: seq<BuySignal>, k: nat)
    requires Digest(h, x) && Digest(h, y) && k <= |x|
    ensures k <= |y| && forall m | 0 <= m < k :: x[m] == y[m]
  {
    hide Digest;
    if k > 0 {
      SamePrefix(h, x, y, k - 1);
      SameNext(h, x, y, k - 1);
    }
  }

  /** The digest of a history is unique, so it defines the list. */
  lemma DigestIsUnique(h: seq<Submission>, x: seq<BuySignal>, y: seq<BuySignal>)
    requires Digest(h, x) && Digest(h, y)
    ensures x == y
  {
    SamePrefix(h, x, y, |x|);
    SamePrefix(h, y, x, |y|);
  }

  // ---- The engine computes the digest ----

  /** What an unexpired, untriggered vote list becomes with one more vote. */
  function Absorbed(votes: seq<BuySignal>, s: BuySignal): seq<BuySignal>
  {
    var k := IndexOf(votes, s.wallet);
    if k == |votes| then votes + [s]
    else if Score(s) > Score(votes[k]) then votes[k := s]
    else votes
  }

  lemma FirstStable(h: seq<Submission>, x: Submission, wallet: Pubkey, i: nat)
    ensures FirstOf(h, wallet, i) ==> FirstOf(h + [x], wallet, i)
    ensures FirstOf(h + [x], wallet, i) ==> FirstOf(h, wallet, i) || (i == |h| && x.signal.wallet == wallet)
  {
    var h' := h + [x];
    assert forall j | 0 <= j < |h| :: h'[j] == h[j];
  }

  lemma BestStable(h: seq<Submission>, x: Submission, s: BuySignal)
    requires BestOf(h, s) && (x.signal.wallet == s.wallet ==> Score(x.signal) <= Score(s))
    ensures BestOf(h + [x], s)
  {
    var i: nat :| BestAt(h, s, i);
    assert BestAt(h + [x], s, i);
  }

  lemma BestNew(h: seq<Submission>, x: Submission)
    requires forall j | 0 <= j < |h| && h[j].signal.wallet == x.signal.wallet :: Score(h[j].signal) < Score(x.signal)
    ensures BestOf(h + [x], x.signal)
  {
    assert BestAt(h + [x], x.signal, |h|);
  }

  lemma ScoresBelowBest(h: seq<Submission>, s: BuySignal)
    requires BestOf(h, s)
    ensures forall j | 0 <= j < |h| && h[j].signal.wallet == s.wallet :: Score(h[j].signal) <= Score(s)
  {
  }

  lemma DigestEntriesStep(h: seq<Submission>, votes: seq<BuySignal>, x: Submission)
    requires Digest(h, votes)
    ensures forall k | 0 <= k < |Absorbed(votes, x.signal)| :: BestOf(h + [x], Absorbed(votes, x.signal)[k])
  {
    DigestWalletsDiffer(h, votes);
    var votes' := Absorbed(votes, x.signal);
    var at := IndexOf(votes, x.signal.wallet);
    forall k | 0 <= k < |votes'|
      ensures BestOf(h + [x], votes'[k])
    {
      if k < |votes| {
        assert BestOf(h, votes[k]);
        ScoresBelowBest(h, votes[k]);
        if k != at || Score(x.signal) <= Score(votes[k]) {
          BestStable(h, x, votes[k]);
        } else {
          BestNew(h, x);
        }
      } else {
        assert forall j | 0 <= j < |h| :: h[j].signal.wallet != x.signal.wallet;
        BestNew(h, x);
      }
    }
  }

  lemma DigestOrderStep(h: seq<Submission>, votes: seq<BuySignal>, x: Submission, a: nat, b: nat, i: nat, j: nat)
    requires Digest(h, votes) && a < b < |Absorbed(votes, x.signal)|
    requires FirstOf(h + [x], Absorbed(votes, x.signal)[a].wallet, i) && FirstOf(h + [x], Absorbed(votes, x.signal)[b].wallet, j)
    ensures i < j
  {
    var votes' := Absorbed(votes, x.signal);
    FirstStable(h, x, votes'[a].wallet, i);
    FirstStable(h, x, votes'[b].wallet, j);
    assert votes'[a].wallet == votes[a].wallet;
    assert BestOf(h, votes[a]);
    var p := FirstIn(h, votes[a]);
    FirstStable(h, x, votes[a].wallet, p);
    if b < |votes| {
      assert votes'[b].wallet == votes[b].wallet;
      assert BestOf(h, votes[b]);
      var q := FirstIn(h, votes[b]);
      FirstStable(h, x, votes[b].wallet, q);
    }
  }

  lemma DigestStep(h: seq<Submission>, votes: seq<BuySignal>, x: Submission)
    requires Digest(h, votes)
    ensures Digest(h + [x], Absorbed(votes, x.signal))
  {
    var h', votes' := h + [x], Absorbed(votes, x.signal);
    forall i | 0 <= i < |h'|
      ensures IndexOf(votes', h'[i].signal.wallet) < |votes'|
    {
      var k := IndexOf(votes, h'[i].signal.wallet);
      if i < |h| {
        assert h'[i] == h[i] && votes'[k].wallet == h[i].signal.wallet;
      } else {
        assert votes'[k].wallet == x.signal.wallet;
      }
    }
    DigestEntriesStep(h, votes, x);
    forall a, b, i, j | 0 <= a < b < |votes'| && FirstOf(h', votes'[a].wallet, i) && FirstOf(h', votes'[b].wallet, j)
      ensures i < j
    {
      DigestOrderStep(h, votes, x, a, b, i, j);
    }
  }

  /** No vote had expired when a later one came in. */
  ghost predicate NoneExpires(h: seq<Submission>, timeout: nat)
  {
    forall i, j | 0 <= i <= j < |h| :: Fresh(h[i].signal, h[j].now, timeout)
  }

  lemma {:induction false} RetainFreshKeepsAll(s: seq<BuySignal>, now: nat, timeout: nat)
    requires forall i | 0 <= i < |s| :: Fresh(s[i], now, timeout)
    ensures RetainFresh(s, now, timeout) == s
    decreases |s|
  {
    if s != [] {
      RetainFreshKeepsAll(s[..|s| - 1], now, timeout);
      assert s == s[..|s| - 1] + [s[|s| - 1]];
    }
  }

  /** The entry after the votes, starting from an empty one. */
  function EntryAfter(start: TokenSignals, h: seq<Submission>): TokenSignals
    decreases |h|
  {
    if h == [] then start
    else Submit(EntryAfter(start, h[..|h| - 1]), h[|h| - 1].signal, h[|h| - 1].now).0
  }

  /** What the last of the votes made the engine send. */
  function TriggerOfLast(start: TokenSignals, h: seq<Submission>): Option<ConsensusTrigger>
    requires h != []
  {
    Submit(EntryAfter(start, h[..|h| - 1]), h[|h| - 1].signal, h[|h| - 1].now).1
  }

  ghost predicate ReachedBy(h: seq<Submission>, minWallets: nat)
  {
    exists m :: 0 <= m <= |h| && Reaches(h[..m], minWallets)
  }

  lemma ReachedByStep(h: seq<Submission>, x: Submission, minWallets: nat)
    ensures ReachedBy(h + [x], minWallets) <==> ReachedBy(h, minWallets) || Reaches(h + [x], minWallets)
  {
    hide Reaches;
    var h' := h + [x];
    assert h'[..|h'|] == h';
    forall m | 0 <= m <= |h|
      ensures h'[..m] == h[..m]
    {
    }
    if ReachedBy(h, minWallets) {
      var m :| 0 <= m <= |h| && Reaches(h[..m], minWallets);
      assert Reaches(h'[..m], minWallets);
    }
  }

  lemma DigestSignalsAreVotes(h: seq<Submission>, votes: seq<BuySignal>, now: nat, timeout: nat)
    requires Digest(h, votes) && forall i | 0 <= i < |h| :: Fresh(h[i].signal, now, timeout)
    ensures forall k | 0 <= k < |votes| :: Fresh(votes[k], now, timeout)
  {
    forall k | 0 <= k < |votes|
      ensures Fresh(votes[k], now, timeout)
    {
      assert BestOf(h, votes[k]);
    }
  }

  /** One vote on an entry that holds the digest of the earlier ones. */
  lemma SubmitIsDigestStep(e: TokenSignals, h: seq<Submission>, x: Submission)
    requires Digest(h, e.signals) && !e.triggered && e.minWallets >= 1
    requires forall i | 0 <= i < |h| :: Fresh(h[i].signal, x.now, e.timeout)
    ensures var (after, trigger) := Submit(e, x.signal, x.now);
      && Digest(h + [x], Absorbed(e.signals, x.signal))
      && after.signals == Absorbed(e.signals, x.signal)
      && (!Taken(e, x.signal, x.now) ==> after.signals == e.signals)
      && (trigger.Some? <==> Taken(e, x.signal, x.now) && |Effective(after.signals)| >= e.minWallets)
      && (after.triggered <==> trigger.Some?)
  {
    hide Digest, Submit, Absorbed, Taken;
    DigestSignalsAreVotes(h, e.signals, x.now, e.timeout);
    DigestStep(h, e.signals, x);
    SubmitAbsorbs(e, x.signal, x.now);
  }

  lemma SubmitAbsorbs(e: TokenSignals, s: BuySignal, now: nat)
    requires !e.triggered && e.minWallets >= 1
    requires forall k | 0 <= k < |e.signals| :: Fresh(e.signals[k], now, e.timeout)
    ensures var (after, trigger) := Submit(e, s, now);
      && after.signals == Absorbed(e.signals, s)
      && (!Taken(e, s, now) ==> after.signals == e.signals)
      && (trigger.Some? <==> Taken(e, s, now) && |Effective(after.signals)| >= e.minWallets)
      && (after.triggered <==> trigger.Some?)
  {
    RetainFreshKeepsAll(e.signals, now, e.timeout);
  }

  lemma ReachesIff(h: seq<Submission>, votes: seq<BuySignal>, minWallets: nat)
    requires Digest(h, votes)
    ensures Reaches(h, minWallets) <==> |Effective(votes)| >= minWallets
  {
    if Reaches(h, minWallets) {
      var other :| Digest(h, other) && |Effective(other)| >= minWallets;
      DigestIsUnique(h, votes, other);
    }
  }

  /**
   * Until the quorum is first reached the entry lists the digest of all votes; it is triggered from
   * then on, and never before.
   */
  lemma {:induction false} EntryIsDigest(start: TokenSignals, h: seq<Submission>)
    requires start.signals == [] && !start.triggered && start.minWallets >= 1
    requires NoneExpires(h, start.timeout)
    ensures var e := EntryAfter(start, h);
      && e.minWallets == start.minWallets && e.timeout == start.timeout
      && (e.triggered <==> ReachedBy(h, start.minWallets))
      && (!e.triggered ==> Digest(h, e.signals) && |Effective(e.signals)| < e.minWallets)
    decreases |h|
  {
    var n := start.minWallets;
    if h == [] {
      assert Digest(h, []);
      ReachesIff(h, [], n);
      assert ReachedBy(h, n) ==> Reaches(h, n) by {
        assert forall m | 0 <= m <= |h| :: h[..m] == h;
      }
    } else {
      var before, x := h[..|h| - 1], h[|h| - 1];
      assert h == before + [x];
      EntryIsDigest(start, before);
      ReachedByStep(before, x, n);
      var e := EntryAfter(start, before);
      if !e.triggered {
        SubmitIsDigestStep(e, before, x);
        ReachesIff(h, Absorbed(e.signals, x.signal), n);
      }
    }
  }

  /**
   * The engine fires at exactly the first vote that completes a quorum, and what it sends names the
   * distinct wallets of the counted votes and imitates one of maximal score.
   */
  lemma FiresAtFirstQuorum(start: TokenSignals, h: seq<Submission>)
    requires start.signals == [] && !start.triggered && start.minWallets >= 1
    requires h != [] && NoneExpires(h, start.timeout)
    ensures TriggerOfLast(start, h).Some? <==>
      Reaches(h, start.minWallets) && !ReachedBy(h[..|h| - 1], start.minWallets)
    ensures TriggerOfLast(start, h).Some? ==>
      exists votes ::
        && Digest(h, votes) && |Effective(votes)| >= start.minWallets
        && TriggerOfLast(start, h).value.wallets == Wallets(Effective(votes))
        && TriggerOfLast(start, h).value.canonical == Canonical(Effective(votes))
        && TriggerOfLast(start, h).value.firstSignature == Earliest(Effective(votes)).signature
  {
    hide Digest, Reaches, ReachedBy, Absorbed, Absorb, Taken, Effective, Canonical, Earliest;
    var before, x := h[..|h| - 1], h[|h| - 1];
    assert h == before + [x];
    EntryIsDigest(start, before);
    var e := EntryAfter(start, before);
    if !e.triggered {
      SubmitIsDigestStep(e, before, x);
      ReachesIff(h, Absorbed(e.signals, x.signal), start.minWallets);
    }
  }

  /** Distinct wallets, and a vote to imitate that scores no lower than any counted best vote. */
  ghost predicate Sound(h: seq<Submission>, wallets: seq<Pubkey>, canonical: BuySignal)
  {
    && (forall a, b | 0 <= a < b < |wallets| :: wallets[a] != wallets[b])
    && Counts(canonical) && canonical.wallet in wallets && BestOf(h, canonical)
    && (forall s | BestOf(h, s) && Counts(s) :: Score(s) <= Score(canonical))
  }

  lemma {:induction false} EffectiveKeepsDistinct(votes: seq<BuySignal>)
    ensures forall x | x in Effective(votes) :: x in votes && Counts(x)
    ensures forall x | x in votes && Counts(x) :: x in Effective(votes)
    ensures (forall a, b | 0 <= a < b < |votes| :: votes[a].wallet != votes[b].wallet) ==>
      forall a, b | 0 <= a < b < |Effective(votes)| :: Effective(votes)[a].wallet != Effective(votes)[b].wallet
    decreases |votes|
  {
    if votes != [] {
      var front, last := votes[..|votes| - 1], votes[|votes| - 1];
      EffectiveKeepsDistinct(front);
      assert votes == front + [last];
      if forall a, b | 0 <= a < b < |votes| :: votes[a].wallet != votes[b].wallet {
        forall a | 0 <= a < |Effective(front)|
          ensures Effective(front)[a].wallet != last.wallet
        {
          assert Effective(front)[a] in front;
        }
      }
    }
  }

  lemma BestIsListed(h: seq<Submission>, votes: seq<BuySignal>, s: BuySignal)
    requires Digest(h, votes) && BestOf(h, s) && Counts(s)
    ensures s in Effective(votes)
  {
    var m: nat :| BestAt(h, s, m);
    var j := IndexOf(votes, h[m].signal.wallet);
    assert j < |votes| && BestOf(h, votes[j]);
    BestIsUnique(h, s, votes[j]);
    EffectiveKeepsDistinct(votes);
  }

  lemma CountedVotesAreSound(h: seq<Submission>, votes: seq<BuySignal>)
    requires Digest(h, votes) && Effective(votes) != []
    ensures Sound(h, Wallets(Effective(votes)), Canonical(Effective(votes)))
  {
    DigestWalletsDiffer(h, votes);
    EffectiveKeepsDistinct(votes);
    var counted := Effective(votes);
    var k := CanonicalIsLastBest(counted);
    assert Wallets(counted)[k] == counted[k].wallet && counted[k] in counted;
    forall s | BestOf(h, s) && Counts(s)
      ensures Score(s) <= Score(counted[k])
    {
      BestIsListed(h, votes, s);
    }
  }

  /** Every trigger names at least a quorum of distinct wallets and imitates a counted vote of maximal score. */
  lemma TriggerIsSound(start: TokenSignals, h: seq<Submission>)
    requires start.signals == [] && !start.triggered && start.minWallets >= 1
    requires h != [] && NoneExpires(h, start.timeout) && TriggerOfLast(start, h).Some?
    ensures |TriggerOfLast(start, h).value.wallets| >= start.minWallets
    ensures Sound(h, TriggerOfLast(start, h).value.wallets, TriggerOfLast(start, h).value.canonical)
  {
    hide TriggerOfLast, Sound, Digest;
    FiresAtFirstQuorum(start, h);
    var t := TriggerOfLast(start, h).value;
    var votes :| Digest(h, votes) && |Effective(votes)| >= start.minWallets && t.wallets == Wallets(Effective(votes))
                 && t.canonical == Canonical(Effective(votes));
    CountedVotesAreSound(h, votes);
  }
}
