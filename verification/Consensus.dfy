/** The consensus engine: wallets vote for a token within a group until a quorum triggers a buy. */
module Consensus {
  import opened Common

  datatype TradeOrigin = Direct | WrapperCpi

  datatype ConsensusKey = ConsensusKey(groupId: string, tokenMint: Pubkey)

  /** Times are milliseconds. */
  datatype BuySignal = BuySignal(
    groupId: string,
    tokenMint: Pubkey,
    wallet: Pubkey,
    tokenProgram: Pubkey,
    detectedAt: nat,
    signature: string,
    minWallets: nat,
    timeoutSecs: nat,
    instructionData: seq<byte>,
    instructionAccounts: seq<Pubkey>,
    lamports: nat,
    preExecution: bool,
    origin: TradeOrigin)

  /** The votes for one key; the quorum and timeout are those of the signal that opened the entry. */
  datatype TokenSignals = TokenSignals(signals: seq<BuySignal>, triggered: bool, minWallets: nat, timeout: nat)

  datatype ConsensusTrigger = ConsensusTrigger(
    groupId: string,
    tokenMint: Pubkey,
    wallets: seq<Pubkey>,
    firstSignature: string,
    canonical: BuySignal)

  // ---- Votes ----

  predicate HasTargetInstruction(s: BuySignal)
  {
    |s.instructionData| >= 24
  }

  predicate Counts(s: BuySignal)
  {
    HasTargetInstruction(s) || s.lamports > 0 || s.origin.WrapperCpi?
  }

  function Score(s: BuySignal): nat
  {
    (if HasTargetInstruction(s) then 8 else 0)
    + (if s.instructionAccounts != [] then 4 else 0)
    + (if s.lamports > 0 then 2 else 0)
    + (if s.preExecution then 0 else 1)
  }

  /** The replacement rule as written, with its tie-break on executed signals. */
  predicate ShouldReplace(existing: BuySignal, incoming: BuySignal)
  {
    Score(incoming) > Score(existing)
    || (Score(incoming) == Score(existing) && !incoming.preExecution && existing.preExecution)
  }

  /** A score determines its four flags, so equal scores never differ in execution and the tie-break is dead. */
  lemma ReplacementIsStrictIncrease(existing: BuySignal, incoming: BuySignal)
    ensures ShouldReplace(existing, incoming) <==> Score(incoming) > Score(existing)
    ensures Score(incoming) == Score(existing) ==>
      && HasTargetInstruction(incoming) == HasTargetInstruction(existing)
      && (incoming.instructionAccounts == [] <==> existing.instructionAccounts == [])
      && (incoming.lamports == 0 <==> existing.lamports == 0)
      && incoming.preExecution == existing.preExecution
  {
  }

  predicate Fresh(s: BuySignal, now: nat, timeout: nat)
  {
    Elapsed(now, s.detectedAt) < timeout
  }

  /** The signals that have not expired, in order. */
  function RetainFresh(signals: seq<BuySignal>, now: nat, timeout: nat): seq<BuySignal>
  {
    if signals == [] then [] else
    var rest := RetainFresh(signals[..|signals| - 1], now, timeout);
    if Fresh(signals[|signals| - 1], now, timeout) then rest + [signals[|signals| - 1]] else rest
  }

  /** The signals other than the given wallet's one of the given signature, in order. */
  function WithoutSignal(signals: seq<BuySignal>, wallet: Pubkey, signature: string): seq<BuySignal>
  {
    if signals == [] then [] else
    var rest := WithoutSignal(signals[..|signals| - 1], wallet, signature);
    var last := signals[|signals| - 1];
    if last.wallet == wallet && last.signature == signature then rest else rest + [last]
  }

  function WithoutWallet(signals: seq<BuySignal>, wallet: Pubkey): seq<BuySignal>
  {
    if signals == [] then [] else
    var rest := WithoutWallet(signals[..|signals| - 1], wallet);
    if signals[|signals| - 1].wallet == wallet then rest else rest + [signals[|signals| - 1]]
  }

  /** The signals that count as votes, in order. */
  function Effective(signals: seq<BuySignal>): seq<BuySignal>
  {
    if signals == [] then [] else
    var rest := Effective(signals[..|signals| - 1]);
    if Counts(signals[|signals| - 1]) then rest + [signals[|signals| - 1]] else rest
  }

  function Wallets(signals: seq<BuySignal>): (wallets: seq<Pubkey>)
    ensures |wallets| == |signals| && forall i | 0 <= i < |signals| :: wallets[i] == signals[i].wallet
  {
    seq(|signals|, i requires 0 <= i < |signals| => signals[i].wallet)
  }

  /** The index of the wallet's signal, or the number of signals if it has none. */
  function IndexOf(signals: seq<BuySignal>, wallet: Pubkey): (k: nat)
    ensures k <= |signals|
    ensures k < |signals| ==> signals[k].wallet == wallet
    ensures forall i | 0 <= i < k :: signals[i].wallet != wallet
  {
    if signals == [] then 0
    else if signals[0].wallet == wallet then 0
    else 1 + IndexOf(signals[1..], wallet)
  }

  /** The last of the signals of maximal score. */
  function Canonical(signals: seq<BuySignal>): BuySignal
    requires signals != []
  {
    if |signals| == 1 then signals[0] else
    var best := Canonical(signals[..|signals| - 1]);
    var last := signals[|signals| - 1];
    if Score(best) <= Score(last) then last else best
  }

  /** The first of the earliest detected signals. */
  function Earliest(signals: seq<BuySignal>): BuySignal
    requires signals != []
  {
    if |signals| == 1 then signals[0] else
    var first := Earliest(signals[..|signals| - 1]);
    var last := signals[|signals| - 1];
    if last.detectedAt < first.detectedAt then last else first
  }

  lemma {:induction false} CanonicalIsLastBest(signals: seq<BuySignal>) returns (k: nat)
    requires signals != []
    ensures k < |signals| && signals[k] == Canonical(signals)
    ensures forall i | 0 <= i < |signals| :: Score(signals[i]) <= Score(signals[k])
    ensures forall i | k < i < |signals| :: Score(signals[i]) < Score(signals[k])
    decreases |signals|
  {
    if |signals| == 1 {
      k := 0;
    } else {
      k := CanonicalIsLastBest(signals[..|signals| - 1]);
      if Score(Canonical(signals[..|signals| - 1])) <= Score(signals[|signals| - 1]) {
        k := |signals| - 1;
      }
    }
  }

  lemma {:induction false} EarliestIsFirstSeen(signals: seq<BuySignal>) returns (k: nat)
    requires signals != []
    ensures k < |signals| && signals[k] == Earliest(signals)
    ensures forall i | 0 <= i < |signals| :: signals[k].detectedAt <= signals[i].detectedAt
    ensures forall i | 0 <= i < k :: signals[k].detectedAt < signals[i].detectedAt
    decreases |signals|
  {
    if |signals| == 1 {
      k := 0;
    } else {
      k := EarliestIsFirstSeen(signals[..|signals| - 1]);
      if signals[|signals| - 1].detectedAt < signals[k].detectedAt {
        k := |signals| - 1;
      }
    }
  }

  // ---- Steps of one entry ----

  function Opened(s: BuySignal): TokenSignals
  {
    TokenSignals([], false, s.minWallets, 1000 * Max(s.timeoutSecs, 1))
  }

  /** The vote list after a signal: expiry first, then a wallet's upgrade or, while untriggered, a new vote. */
  function Absorb(e: TokenSignals, s: BuySignal, now: nat): seq<BuySignal>
  {
    var live := RetainFresh(e.signals, now, e.timeout);
    var k := IndexOf(live, s.wallet);
    if k < |live| then (if ShouldReplace(live[k], s) then live[k := s] else live)
    else if e.triggered then live
    else live + [s]
  }

  /** Whether the signal itself is taken into the list. */
  predicate Taken(e: TokenSignals, s: BuySignal, now: nat)
  {
    var live := RetainFresh(e.signals, now, e.timeout);
    var k := IndexOf(live, s.wallet);
    if k < |live| then ShouldReplace(live[k], s) else !e.triggered
  }

  function Submit(e: TokenSignals, s: BuySignal, now: nat): (TokenSignals, Option<ConsensusTrigger>)
  {
    var signals := Absorb(e, s, now);
    var votes := Effective(signals);
    if Taken(e, s, now) && !e.triggered && |votes| >= e.minWallets && votes != [] then
      (e.(signals := signals, triggered := true),
       Some(ConsensusTrigger(s.groupId, s.tokenMint, Wallets(votes), Earliest(votes).signature, Canonical(votes))))
    else
      (e.(signals := signals), None)
  }

  function Reject(e: TokenSignals, wallet: Pubkey, signature: string): TokenSignals
  {
    var signals := WithoutSignal(e.signals, wallet, signature);
    e.(signals := signals, triggered := |Effective(signals)| >= e.minWallets)
  }

  function Revoke(e: TokenSignals, wallet: Pubkey): TokenSignals
  {
    if e.triggered then e else e.(signals := WithoutWallet(e.signals, wallet))
  }

  /** A cleanup pass over one entry: nothing is left of an entry without live votes. */
  function Cleanup(e: TokenSignals, now: nat): Option<TokenSignals>
  {
    var live := RetainFresh(e.signals, now, e.timeout);
    if live == [] then None
    else if e.triggered && (forall i | 0 <= i < |live| :: Elapsed(now, live[i].detectedAt) > e.timeout * 2) then None
    else Some(e.(signals := live))
  }

  // ---- The engine ----

  class ConsensusEngine {
    var signals: map<ConsensusKey, TokenSignals>

    constructor ()
      ensures signals == map[]
    {
      signals := map[];
    }

    method SubmitSignal(signal: BuySignal, now: nat) returns (trigger: Option<ConsensusTrigger>)
      modifies this
      ensures
        var key := ConsensusKey(signal.groupId, signal.tokenMint);
        var before := if key in old(signals) then old(signals)[key] else Opened(signal);
        signals == old(signals)[key := Submit(before, signal, now).0] && trigger == Submit(before, signal, now).1
    {
      var key := ConsensusKey(signal.groupId, signal.tokenMint);
      var entry := if key in signals then signals[key] else Opened(signal);
      var live := Retained(entry.signals, now, entry.timeout);
      var k := Find(live, signal.wallet);
      trigger := None;
      if k < |live| {
        if !ShouldReplace(live[k], signal) {
          signals := signals[key := entry.(signals := live)];
          return;
        }
        live := live[k := signal];
      } else {
        if entry.triggered {
          signals := signals[key := entry.(signals := live)];
          return;
        }
        live := live + [signal];
      }
      var votes := Tally(live);
      if entry.triggered || |votes| < entry.minWallets || |votes| == 0 {
        signals := signals[key := entry.(signals := live)];
        return;
      }
      var canonical, first := Pick(votes);
      signals := signals[key := entry.(signals := live, triggered := true)];
      trigger := Some(ConsensusTrigger(signal.groupId, signal.tokenMint, Wallets(votes), first.signature, canonical));
    }

    method Retained(votes: seq<BuySignal>, now: nat, timeout: nat) returns (live: seq<BuySignal>)
      ensures live == RetainFresh(votes, now, timeout)
    {
      live := [];
      for i := 0 to |votes|
        invariant live == RetainFresh(votes[..i], now, timeout)
      {
        assert votes[..i + 1][..i] == votes[..i];
        if Fresh(votes[i], now, timeout) {
          live := live + [votes[i]];
        }
      }
      assert votes[..|votes|] == votes;
    }

    method Find(votes: seq<BuySignal>, wallet: Pubkey) returns (k: nat)
      ensures k == IndexOf(votes, wallet)
    {
      k := 0;
      while k < |votes| && votes[k].wallet != wallet
        invariant k <= |votes| && forall i | 0 <= i < k :: votes[i].wallet != wallet
      {
        k := k + 1;
      }
    }

    method Tally(votes: seq<BuySignal>) returns (counted: seq<BuySignal>)
      ensures counted == Effective(votes)
    {
      counted := [];
      for i := 0 to |votes|
        invariant counted == Effective(votes[..i])
      {
        assert votes[..i + 1][..i] == votes[..i];
        if Counts(votes[i]) {
          counted := counted + [votes[i]];
        }
      }
      assert votes[..|votes|] == votes;
    }

    /** The signal to imitate and the one seen first. */
    method Pick(votes: seq<BuySignal>) returns (canonical: BuySignal, first: BuySignal)
      requires votes != []
      ensures canonical == Canonical(votes) && first == Earliest(votes)
    {
      canonical, first := votes[0], votes[0];
      for i := 1 to |votes|
        invariant canonical == Canonical(votes[..i]) && first == Earliest(votes[..i])
      {
        assert votes[..i + 1][..i] == votes[..i];
        if Score(votes[i]) >= Score(canonical) {
          canonical := votes[i];
        }
        if votes[i].detectedAt < first.detectedAt {
          first := votes[i];
        }
      }
      assert votes[..|votes|] == votes;
    }

    /** Withdraws one signal after its transaction failed; the answer says whether it was there. */
    method RejectSignal(groupId: string, mint: Pubkey, wallet: Pubkey, signature: string) returns (removed: bool)
      modifies this
      ensures
        var key := ConsensusKey(groupId, mint);
        signals == if key in old(signals) then old(signals)[key := Reject(old(signals)[key], wallet, signature)] else old(signals)
      ensures
        var key := ConsensusKey(groupId, mint);
        removed <==> key in old(signals) && exists s :: s in old(signals)[key].signals && s.wallet == wallet && s.signature == signature
    {
      var key := ConsensusKey(groupId, mint);
      removed := false;
      if key in signals {
        var entry := signals[key];
        var kept := [];
        for i := 0 to |entry.signals|
          invariant kept == WithoutSignal(entry.signals[..i], wallet, signature)
          invariant removed <==> exists j :: 0 <= j < i && entry.signals[j].wallet == wallet && entry.signals[j].signature == signature
        {
          assert entry.signals[..i + 1][..i] == entry.signals[..i];
          if entry.signals[i].wallet == wallet && entry.signals[i].signature == signature {
            removed := true;
          } else {
            kept := kept + [entry.signals[i]];
          }
        }
        assert entry.signals[..|entry.signals|] == entry.signals;
        var votes := Tally(kept);
        signals := signals[key := entry.(signals := kept, triggered := |votes| >= entry.minWallets)];
      }
    }

    method RevokeSignal(groupId: string, mint: Pubkey, wallet: Pubkey) returns (removed: bool)
      modifies this
      ensures
        var key := ConsensusKey(groupId, mint);
        && signals == (if key in old(signals) then old(signals)[key := Revoke(old(signals)[key], wallet)] else old(signals))
        && (removed <==> key in old(signals) && |Revoke(old(signals)[key], wallet).signals| != |old(signals)[key].signals|)
    {
      var key := ConsensusKey(groupId, mint);
      removed := false;
      if key in signals && !signals[key].triggered {
        var entry := signals[key];
        var kept := [];
        for i := 0 to |entry.signals|
          invariant kept == WithoutWallet(entry.signals[..i], wallet)
        {
          assert entry.signals[..i + 1][..i] == entry.signals[..i];
          if entry.signals[i].wallet != wallet {
            kept := kept + [entry.signals[i]];
          }
        }
        assert entry.signals[..|entry.signals|] == entry.signals;
        removed := |kept| != |entry.signals|;
        signals := signals[key := entry.(signals := kept)];
      }
    }

    /** One round of the background cleanup, entry by entry. */
    method CleanupAll(now: nat)
      modifies this
      ensures signals == map k | k in old(signals) && Cleanup(old(signals)[k], now).Some? :: Cleanup(old(signals)[k], now).value
    {
      var rest := signals.Keys;
      var kept: map<ConsensusKey, TokenSignals> := map[];
      while rest != {}
        invariant rest <= signals.Keys && signals == old(signals)
        invariant kept == map k | k in signals.Keys - rest && Cleanup(signals[k], now).Some? :: Cleanup(signals[k], now).value
        decreases |rest|
      {
        var k :| k in rest;
        var entry := signals[k];
        var live := Retained(entry.signals, now, entry.timeout);
        rest := rest - {k};
        if live != [] {
          var expired := entry.triggered;
          for i := 0 to |live|
            invariant expired <==> entry.triggered && forall j | 0 <= j < i :: Elapsed(now, live[j].detectedAt) > entry.timeout * 2
          {
            expired := expired && Elapsed(now, live[i].detectedAt) > entry.timeout * 2;
          }
          if !expired {
            kept := kept[k := entry.(signals := live)];
          }
        }
      }
      signals := kept;
    }
  }
}
